// The crash-safe network transaction.
module Network {
  import opened Wrappers
  import opened Config
  import opened Json
  import opened Kernel
  import opened Transaction
  import opened Machine
  import Installation

  const CONFIRMATION_SECONDS: int := 60

  const FRESH: Record := Record(Inactive, Null, [], "", "", [])

  // ---- Stages of an installation ----

  /** Both ports prepared: no IPv6, no reverse-path filter, outer port up under its new MAC. */
  ghost function PortsPrepared(k: Kernel, p: Plan): Kernel
    requires p.outer in k.links && p.inner in k.links
  {
    var outer := k.links[p.outer].(disableIpv6 := "1", rpFilter := "0", mac := p.mac, up := true);
    var inner := k.links[p.inner].(disableIpv6 := "1", rpFilter := "0");
    k.(links := k.links[p.outer := outer][p.inner := inner])
  }

  ghost function VlanPrepared(k: Kernel, p: Plan): Kernel {
    if p.vlan.None? then k
    else k.(links := k.links[VLAN_LINK := Link(true, p.mac, "1", "0", {}, false, Vlan(p.outer, p.vlan.value))])
  }

  ghost function Guarded(k: Kernel, p: Plan): Kernel {
    k.(inet := Some(GuardRules(p)))
  }

  ghost function Addressed(k: Kernel, p: Plan): Kernel
    requires p.inner in k.links && OuterLink(p) in k.links
  {
    var up := k.links[p.inner := k.links[p.inner].(up := true, addresses := k.links[p.inner].addresses + {p.innerAddress})];
    k.(links := up[OuterLink(p) := up[OuterLink(p)].(addresses := up[OuterLink(p)].addresses + {p.outerAddress})])
  }

  ghost function Routed(k: Kernel, p: Plan): Kernel {
    k.(routes := k.routes + {SubnetRoute(p), GatewayRoute(p)}, rules := k.rules + {OwnRule(p)})
  }

  ghost function Forwarding(k: Kernel): Kernel {
    k.(ipForward := "1", rpFilterAll := "0")
  }

  ghost function Translating(k: Kernel, p: Plan): Kernel {
    k.(inet := Some(FullRules(p)), translation := Some(NatRules(p)))
  }

  /** The stages of `install`, one after the other, amount to the complete result. */
  lemma StagesInstall(k: Kernel, b: Kernel, p: Plan)
    requires Eligible(b, p) && Strip(k) == Strip(b)
    ensures var k2 := VlanPrepared(PortsPrepared(k, p), p);
            Strip(Translating(Forwarding(Routed(Addressed(Guarded(k2, p), p), p)), p)) == Strip(Installed(b, p))
  {
    assert k == b.(connections := k.connections) by { assert k == Strip(k).(connections := k.connections); }
    var k2 := VlanPrepared(PortsPrepared(k, p), p);
    var done := Translating(Forwarding(Routed(Addressed(Guarded(k2, p), p), p)), p);
    assert {} + {p.innerAddress} == {p.innerAddress} && {} + {p.outerAddress} == {p.outerAddress};
    assert k.links == b.links && b.links[p.outer].addresses == {} && b.links[p.inner].addresses == {};
    assert done.links == Installed(b, p).links;
    assert done == Installed(b, p).(connections := k.connections);
    assert Unmarked(k.connections) == Strip(b).connections;
  }

  /** Each stage leaves what the next one needs. */
  lemma StageFacts(k: Kernel, b: Kernel, p: Plan)
    requires Eligible(b, p) && Strip(k) == Strip(b)
    ensures k == b.(connections := k.connections) && k.inet.None? && k.translation.None?
    ensures p.outer != p.inner && p.outer in k.links && p.inner in k.links && p.outer != VLAN_LINK
    ensures var k1 := PortsPrepared(k, p);
            VLAN_LINK !in k1.links && k1.links[p.outer].mac == p.mac &&
            (p.vlan.Some? && VlanTaken(k1, p.outer, p.vlan.value) <==> !Installable(b, p))
    ensures var k3 := Guarded(VlanPrepared(PortsPrepared(k, p), p), p);
            && p.inner in k3.links && OuterLink(p) in k3.links && p.inner != OuterLink(p)
            && p.innerAddress !in k3.links[p.inner].addresses && p.outerAddress !in k3.links[OuterLink(p)].addresses
    ensures var k4 := Addressed(Guarded(VlanPrepared(PortsPrepared(k, p), p), p), p);
            && OuterLink(p) in k4.links && k4.links[OuterLink(p)].up
            && OnLink(k4.links[OuterLink(p)], p.gateway)
            && SubnetRoute(p) !in k4.routes && GatewayRoute(p) !in k4.routes && OwnRule(p) !in k4.rules
  {
    assert k == b.(connections := k.connections) by { assert k == Strip(k).(connections := k.connections); }
    var k1 := PortsPrepared(k, p);
    assert forall n | n in k.links :: n in k1.links && k1.links[n].kind == k.links[n].kind;
    var k4 := Addressed(Guarded(VlanPrepared(k1, p), p), p);
    assert p.outerAddress in k4.links[OuterLink(p)].addresses;
  }

  /** The three kinds of nft batch the controller sends. */
  lemma Batches(k: Kernel, p: Plan)
    ensures k.inet.None? ==> NftEffect(k, [AddInet(GuardRules(p))]) == Some(Guarded(k, p))
    ensures k.inet.Some? ==> NftEffect(k, [DeleteInet, AddInet(GuardRules(p))]) == Some(Guarded(k, p))
    ensures k.inet.Some? && k.translation.None? ==>
              NftEffect(k, [DeleteInet, AddNat(NatRules(p)), AddInet(FullRules(p))]) == Some(Translating(k, p))
    ensures k.inet.Some? ==> NftEffect(k, [DeleteInet]) == Some(k.(inet := None))
    ensures k.translation.Some? ==> NftEffect(k, [DeleteNat]) == Some(k.(translation := None))
    ensures !Leaky(Guarded(k, p), p) && !Marks(Guarded(k, p)) && !Leaky(Translating(k, p), p)
  {
    var none := k.(inet := None);
    var guard, full, nat2 := AddInet(GuardRules(p)), AddInet(FullRules(p)), AddNat(NatRules(p));
    assert [] + GuardRules(p) == GuardRules(p) && [] + FullRules(p) == FullRules(p) && [] + NatRules(p) == NatRules(p);
    assert |GuardRules(p)| != |FullRules(p)|;
    assert [DeleteInet, guard][1..] == [guard];
    assert [DeleteInet, nat2, full][1..] == [nat2, full] && [nat2, full][1..] == [full];
    assert [guard][1..] == [] && [full][1..] == [];
    assert NftEffect(none, [guard]) == Some(Guarded(k, p));
    var translated := none.(translation := Some(NatRules(p)));
    assert NftEffect(translated, [full]) == Some(Translating(k, p));
    if k.inet.Some? {
      assert NftEffect(k, [DeleteInet, guard]) == NftEffect(none, [guard]);
      assert NftEffect(k, [DeleteInet, nat2, full]) == NftEffect(none, [nat2, full]);
      if k.translation.None? {
        assert NftEffect(none, [nat2, full]) == NftEffect(translated, [full]);
      }
    }
  }

  // ---- Stages of a restoration ----

  /** The first n undo steps have been done. */
  ghost predicate Undone(k: Kernel, p: Plan, b: Kernel, n: nat) {
    && (n >= 1 ==> k.inet == Some(GuardRules(p)) && k.connections == Unmarked(b.connections))
    && (n >= 2 ==> k.rules == b.rules)
    && (n >= 3 ==> GatewayRoute(p) !in k.routes)
    && (n >= 4 ==> SubnetRoute(p) !in k.routes)
    && (n >= 5 ==> OuterLink(p) in k.links ==> p.outerAddress !in k.links[OuterLink(p)].addresses)
    && (n >= 6 ==> p.inner in k.links && p.innerAddress !in k.links[p.inner].addresses)
    && (n >= 7 ==> VLAN_LINK !in k.links)
    && (n >= 8 ==> k.translation.None?)
    && (n >= 9 ==> k.ipForward == b.ipForward)
    && (n >= 10 ==> k.rpFilterAll == b.rpFilterAll)
    && (n >= 11 ==> p.outer in k.links && SameSettings(k.links[p.outer], b, p.outer))
    && (n >= 12 ==> p.inner in k.links && SameSettings(k.links[p.inner], b, p.inner))
  }

  ghost predicate SameSettings(l: Link, b: Kernel, n: string) {
    n in b.links && l.up == b.links[n].up && l.mac == b.links[n].mac &&
    l.disableIpv6 == b.links[n].disableIpv6 && l.rpFilter == b.links[n].rpFilter
  }

  lemma RoutesNeedTheirLink(k: Kernel, p: Plan, b: Kernel)
    requires Within(k, p, b) && Eligible(b, p)
    ensures OuterLink(p) !in k.links ==> GatewayRoute(p) !in k.routes && SubnetRoute(p) !in k.routes
    ensures k.rules - {OwnRule(p)} == b.rules
  {
  }

  lemma TranslationMayGo(k: Kernel, p: Plan, b: Kernel)
    requires Covered(k, b) && OwnTables(k, p) && k.translation.Some?
    ensures Permitted(Nft([DeleteNat]), k, p, b)
    ensures Effect(k, Nft([DeleteNat])) == Some(k.(translation := None))
  {
    Batches(k, p);
  }

  lemma GuardMayGo(k: Kernel, p: Plan, b: Kernel)
    requires Eligible(b, p) && Within(k, p, b) && Undone(k, p, b, 12)
    ensures Permitted(Nft([DeleteInet]), k, p, b) && !Marks(k) && !Leaky(k, p)
    ensures Effect(k, Nft([DeleteInet])) == Some(Strip(b)) && !Leaky(Strip(b), p) && k.inet.Some?
  {
    UndoneIsRestored(k, p, b);
    Batches(k, p);
    assert |GuardRules(p)| != |FullRules(p)|;
  }

  lemma EligibleHasNoTable(b: Kernel, p: Plan)
    requires Eligible(b, p)
    ensures b.inet.None? && !Marks(Strip(b))
  {
  }

  lemma SameDescription(r: Record, s: Record, p: Plan, b: Kernel)
    requires Describes(r, p, b)
    requires s == r.(status := s.status, errors := s.errors)
    ensures Describes(s, p, b)
  {
    hide Decode, Eligible;
  }

  ghost predicate Unreserved(k: Kernel) {
    && k.translation.None? && k.inet.None? && VLAN_LINK !in k.links
    && (forall r | r in k.routes :: r.table != TABLE)
    && (forall r | r in k.rules :: r.priority != PRIORITY)
  }

  ghost predicate UnusedPort(k: Kernel, n: string) {
    n != LOOPBACK && FreePort(k, n)
  }

  /** What `apply` looks at decides eligibility, and shows the values of the untouched host. */
  lemma EligibleWhenFree(p: Plan, k: Kernel, b: Kernel)
    requires Coherent(p)
    requires Strip(k) == Strip(b) && forall r | r in b.routes :: r.dev in b.links
    ensures Eligible(b, p) <==> Unreserved(k) && UnusedPort(k, p.outer) && UnusedPort(k, p.inner)
    ensures k == b.(connections := k.connections)
  {
    assert k == b.(connections := k.connections) by { assert k == Strip(k).(connections := k.connections); }
  }

  lemma RecordDescribes(c: NetworkConfig, r: Record, p: Plan, k: Kernel, b: Kernel)
    requires SoundPlan(c) && Decode(ConfigJson(c)) == Some(p) && Eligible(b, p)
    requires k == b.(connections := k.connections)
    requires r.config == ConfigJson(c) && r.ipForward == k.ipForward && r.rpFilterAll == k.rpFilterAll
    requires p.outer in k.links && p.inner in k.links && r.baseline == [InfoOf(k, p.outer), InfoOf(k, p.inner)]
    ensures Describes(r, p, b)
  {
    PlanRoundTrip(c);
    hide SoundPlan, PlanOf;
  }

  /** Two records of the same transaction: same configuration, same baseline, same status. */
  ghost predicate SameTransaction(r: Record, s: Record) {
    r == s.(errors := r.errors)
  }

  lemma SameFacts(r: Record, s: Record, p: Plan, b: Kernel)
    requires Describes(r, p, b) && Describes(s, p, b) && s.config == r.config && s.status == r.status
    ensures SameTransaction(s, r)
  {
    hide Decode, Eligible;
  }

  lemma InstalledIsNotClean(b: Kernel, p: Plan)
    requires Eligible(b, p)
    ensures Strip(Installed(b, p)) != Strip(b)
  {
    assert Strip(Installed(b, p)).inet.Some?;
  }

  lemma LinksThere(k: Kernel, p: Plan, b: Kernel)
    requires Within(k, p, b) && Eligible(b, p)
    ensures p.inner in k.links && p.outer in k.links && p.inner != p.outer
    ensures p.inner != VLAN_LINK && p.outer != VLAN_LINK
    ensures VLAN_LINK in k.links ==> p.vlan.Some?
    ensures k.links[p.inner].kind == b.links[p.inner].kind
  {
  }

  /** All twelve steps leave the host as it was, but for the guard. */
  lemma UndoneIsRestored(k: Kernel, p: Plan, b: Kernel)
    requires Eligible(b, p) && Within(k, p, b) && Undone(k, p, b, 12)
    ensures k.(inet := None) == Strip(b) && Quiet(k, b)
  {
    OwnAddressesGone(k, p, b);
    assert k.links.Keys == b.links.Keys;
    assert k.links == b.links;
    assert k.routes == k.routes - {SubnetRoute(p), GatewayRoute(p)};
  }

  lemma OwnAddressesGone(k: Kernel, p: Plan, b: Kernel)
    requires Eligible(b, p) && Within(k, p, b) && Undone(k, p, b, 12)
    ensures k.links[p.outer] == b.links[p.outer] && k.links[p.inner] == b.links[p.inner]
  {
    assert forall a | a in k.links[p.outer].addresses :: Own(p, p.outer, a);
    assert forall a | a in k.links[p.inner].addresses :: Own(p, p.inner, a);
    assert p.outer != VLAN_LINK && p.inner != VLAN_LINK;
    assert k.links[p.outer].addresses == {};
    assert k.links[p.inner].addresses == {};
  }

  class NetworkController {
    const host: Host
    const enabled: bool
    var state: Record
    var deadline: int
    ghost var unsaved: bool   // the last write of memory did not change the journal to it

    /** Memory and journal hold the same record, or neither has held one yet. */
    predicate Agrees()
      reads `state, host`journal
    {
      host.journal == Some(state) || (host.journal.None? && state == FRESH)
    }

    /** They agree exactly unless the last write was lost. */
    ghost predicate Current()
      reads `state, `unsaved, host`journal
    {
      Agrees() <==> !unsaved
    }

    /** The durable state is safe, and memory speaks about the same transaction. */
    ghost predicate Valid()
      reads this, host
    {
      && host.Safe()
      && (state.status.Inactive? ==> Strip(host.kernel) == Strip(host.before))
      && (!state.status.Inactive? ==> Engaged())
    }

    ghost predicate Engaged()
      reads this, host
    {
      Decode(state.config).Some? &&
      var p := Decode(state.config).value;
      && Describes(state, p, host.before)
      && (Strip(host.kernel) == Strip(host.before) ||
          (!Idle(host.journal) && Decode(host.journal.value.config) == Some(p)))
      && (Settled(state.status) ==>
            Installable(host.before, p) && Strip(host.kernel) == Strip(Installed(host.before, p)))
    }

    /** Memory and journal part only at a fault. */
    twostate predicate Excused()
      reads `unsaved, host`faults
    {
      unsaved && !old(unsaved) ==> host.faults > old(host.faults)
    }

    /** Loads the journal; `Recover` then does what the rest of the construction does. */
    constructor (host: Host, enabled: bool)
      requires host.Safe()
      ensures Valid() && this.host == host && this.enabled == enabled
      ensures state == if host.journal.Some? then host.journal.value else FRESH
      ensures Agrees() && Current()
    {
      this.host, this.enabled := host, enabled;
      state := if host.journal.Some? then host.journal.value else FRESH;
      deadline, unsaved := 0, false;
    }

    // ---- Calls made within a transaction ----

    /** A permitted call keeps the transaction recoverable however it ends. */
    method Perform(call: Call, ghost p: Plan) returns (o: Outcome)
      requires host.Open(p) && Permitted(call, host.kernel, p, host.before)
      requires Effect(host.kernel, call).Some? ==> Leaky(Effect(host.kernel, call).value, p) ==> host.swapRefused
      modifies host`kernel, host`at, host`faults, host`reached
      ensures host.Open(p)
      ensures o.Done? ==> Did(old(host.kernel), call, host.kernel)
      ensures !o.Done? ==> Drifted(old(host.kernel), host.kernel) || Did(old(host.kernel), call, host.kernel)
      ensures host.Progress()
      ensures host.faults == old(host.faults) && Effect(old(host.kernel), call).Some? ==> o.Done?
      ensures host.faults == old(host.faults) ==> !o.Crashed?
    {
      hide Durable, AllDurable, Decode, Permitted, Effect, Did, Drifted, Leaky;
      ghost var s := host.Now();
      o := host.Invoke(call);
      CallKeepsDurable(s, call, host.Now(), p, host.before);
      ReachedExtends(old(host.reached), old(host.faults), s, host.Now(), host.faults, host.before);
    }

    // ---- Installing ----

    method Install(ghost p0: Kernel, p: Plan) returns (o: Outcome)
      requires host.Open(p) && host.kernel == p0 && Strip(p0) == Strip(host.before) && Eligible(host.before, p)
      modifies host`kernel, host`at, host`faults, host`reached
      ensures host.Open(p)
      ensures o.Done? ==> Strip(host.kernel) == Strip(Installed(host.before, p)) && Installable(host.before, p)
      ensures host.Progress()
      ensures host.faults == old(host.faults) ==> !o.Crashed? && (Installable(host.before, p) ==> o.Done?)
    {
      hide Host.Open, Effect, Permitted, Within, Covered, Eligible, Installed, OnLink, Installable;
      StagesInstall(p0, host.before, p);
      StageFacts(p0, host.before, p);
      :- PreparePorts(p);
      :- PrepareVlan(p);
      // The forwarding guard is in place before any address or route.
      :- LoadGuard(p);
      :- AssignAddresses(p);
      :- AddRoutes(p);
      :- EnableForwarding(p);
      :- LoadRules(p);
      o := Done;
    }

    method LoadGuard(p: Plan) returns (o: Outcome)
      requires host.Open(p) && host.kernel.inet.None?
      modifies host`kernel, host`at, host`faults, host`reached
      ensures host.Open(p)
      ensures o.Done? ==> host.kernel == Guarded(old(host.kernel), p)
      ensures host.Progress()
      ensures host.faults == old(host.faults) ==> o.Done?
    {
      hide Host.Open, Durable, AllDurable, Decode, Within, Covered, Eligible;
      assert OwnTables(host.kernel, p) by { OpenFacts(p); }
      Batches(host.kernel, p);
      o := Perform(Nft([AddInet(GuardRules(p))]), p);
    }

    /** The guard is replaced by the complete rules, and the translation added, in one batch. */
    method LoadRules(p: Plan) returns (o: Outcome)
      requires host.Open(p) && host.kernel.inet == Some(GuardRules(p)) && host.kernel.translation.None?
      modifies host`kernel, host`at, host`faults, host`reached
      ensures host.Open(p)
      ensures o.Done? ==> Strip(host.kernel) == Strip(Translating(old(host.kernel), p))
      ensures host.Progress()
      ensures host.faults == old(host.faults) ==> o.Done?
    {
      hide Host.Open, Durable, AllDurable, Decode, Within, Covered, Eligible;
      Batches(host.kernel, p);
      o := Perform(Nft([DeleteInet, AddNat(NatRules(p)), AddInet(FullRules(p))]), p);
    }

    lemma OpenFacts(p: Plan)
      requires host.Open(p)
      ensures Eligible(host.before, p) && Within(host.kernel, p, host.before) && Covered(host.kernel, host.before)
      ensures Leaky(host.kernel, p) ==> host.swapRefused
      ensures OwnTables(host.kernel, p)
    {
      hide Decode, Eligible, Covered, AllDurable, Leaky, OwnTables;
    }

    method PreparePorts(p: Plan) returns (o: Outcome)
      requires host.Open(p) && host.kernel.inet.None?
      requires p.outer != p.inner && p.outer in host.kernel.links && p.inner in host.kernel.links
      modifies host`kernel, host`at, host`faults, host`reached
      ensures host.Open(p)
      ensures o.Done? ==> host.kernel == PortsPrepared(old(host.kernel), p)
      ensures host.Progress()
      ensures host.faults == old(host.faults) ==> o.Done?
    {
      hide Host.Open;
      ghost var k := host.kernel;
      var names := [p.outer, p.inner];
      :- PreparePort(names[0], p);
      :- PreparePort(names[1], p);
      :- SetMac(p);
      assert host.kernel.links == PortsPrepared(k, p).links;
      o := Done;
    }

    method PreparePort(n: string, p: Plan) returns (o: Outcome)
      requires host.Open(p) && host.kernel.inet.None? && OwnLink(p, n) && n in host.kernel.links
      modifies host`kernel, host`at, host`faults, host`reached
      ensures host.Open(p)
      ensures o.Done? ==> host.kernel == old(host.kernel).(links :=
        old(host.kernel).links[n := old(host.kernel).links[n].(disableIpv6 := "1", rpFilter := "0")])
      ensures host.Progress()
      ensures host.faults == old(host.faults) ==> o.Done?
    {
      hide Durable, AllDurable, Decode, Within, Covered, Eligible;
      :- Perform(SetDisableIpv6(n, "1"), p);
      :- Perform(SetRpFilter(n, "0"), p);
      o := Done;
    }

    /** A MAC is changed while the link is down. */
    method SetMac(p: Plan) returns (o: Outcome)
      requires host.Open(p) && host.kernel.inet.None? && p.outer in host.kernel.links
      modifies host`kernel, host`at, host`faults, host`reached
      ensures host.Open(p)
      ensures o.Done? ==> host.kernel == old(host.kernel).(links :=
        old(host.kernel).links[p.outer := old(host.kernel).links[p.outer].(mac := p.mac, up := true)])
      ensures host.Progress()
      ensures host.faults == old(host.faults) ==> o.Done?
    {
      hide Host.Open, Durable, AllDurable, Decode, Within, Covered, Eligible;
      :- Perform(SetLink(p.outer, false, None), p);
      :- Perform(SetLink(p.outer, false, Some(p.mac)), p);
      :- Perform(SetLink(p.outer, true, None), p);
      o := Done;
    }

    method PrepareVlan(p: Plan) returns (o: Outcome)
      requires host.Open(p) && host.kernel.inet.None? && p.outer in host.kernel.links && p.outer != VLAN_LINK
      requires VLAN_LINK !in host.kernel.links && host.kernel.links[p.outer].mac == p.mac
      modifies host`kernel, host`at, host`faults, host`reached
      ensures host.Open(p)
      ensures o.Done? ==> host.kernel == VlanPrepared(old(host.kernel), p)
      ensures o.Done? ==> p.vlan.Some? ==> !VlanTaken(old(host.kernel), p.outer, p.vlan.value)
      ensures host.Progress()
      ensures host.faults == old(host.faults) ==>
        !o.Crashed? && (o.Done? || (p.vlan.Some? && VlanTaken(old(host.kernel), p.outer, p.vlan.value)))
    {
      hide Host.Open, Within, Covered, Eligible, VlanTaken;
      ghost var k := host.kernel;
      if p.vlan.Some? {
        :- Perform(AddVlan(p.outer, p.vlan.value), p);
        assert host.kernel.links == k.links[VLAN_LINK := Link(
          false, p.mac, k.defaults.disableIpv6, k.defaults.rpFilter, {}, false, Vlan(p.outer, p.vlan.value))];
        :- ConfigureVlan(p);
        assert host.kernel.links == VlanPrepared(k, p).links;
      }
      o := Done;
    }

    method ConfigureVlan(p: Plan) returns (o: Outcome)
      requires host.Open(p) && host.kernel.inet.None? && p.vlan.Some? && VLAN_LINK in host.kernel.links
      modifies host`kernel, host`at, host`faults, host`reached
      ensures host.Open(p)
      ensures o.Done? ==> host.kernel == old(host.kernel).(links := old(host.kernel).links[VLAN_LINK :=
        old(host.kernel).links[VLAN_LINK].(disableIpv6 := "1", rpFilter := "0", up := true)])
      ensures host.Progress()
      ensures host.faults == old(host.faults) ==> o.Done?
    {
      hide Host.Open, Within, Covered, Eligible, VlanTaken;
      :- PerformOnLink(SetDisableIpv6(VLAN_LINK, "1"), p);
      :- PerformOnLink(SetRpFilter(VLAN_LINK, "0"), p);
      :- PerformOnLink(SetLink(VLAN_LINK, true, None), p);
      o := Done;
    }

    method AssignAddresses(p: Plan) returns (o: Outcome)
      requires host.Open(p) && host.kernel.inet == Some(GuardRules(p))
      requires p.inner in host.kernel.links && OuterLink(p) in host.kernel.links && p.inner != OuterLink(p)
      requires p.innerAddress !in host.kernel.links[p.inner].addresses
      requires p.outerAddress !in host.kernel.links[OuterLink(p)].addresses
      modifies host`kernel, host`at, host`faults, host`reached
      ensures host.Open(p)
      ensures o.Done? ==> host.kernel == Addressed(old(host.kernel), p)
      ensures host.Progress()
      ensures host.faults == old(host.faults) ==> o.Done?
    {
      hide Host.Open, Durable, AllDurable, Decode, Within, Covered, Eligible;
      ghost var k := host.kernel;
      :- AssignInner(p);
      :- Perform(AddAddress(OuterLink(p), p.outerAddress), p);
      assert host.kernel.links == Addressed(k, p).links;
      o := Done;
    }

    method AssignInner(p: Plan) returns (o: Outcome)
      requires host.Open(p) && host.kernel.inet == Some(GuardRules(p)) && p.inner in host.kernel.links
      requires p.innerAddress !in host.kernel.links[p.inner].addresses
      modifies host`kernel, host`at, host`faults, host`reached
      ensures host.Open(p)
      ensures o.Done? ==> host.kernel == old(host.kernel).(links := old(host.kernel).links[p.inner :=
        old(host.kernel).links[p.inner].(up := true, addresses := old(host.kernel).links[p.inner].addresses + {p.innerAddress})])
      ensures host.Progress()
      ensures host.faults == old(host.faults) ==> o.Done?
    {
      hide Host.Open, Durable, AllDurable, Decode, Within, Covered, Eligible;
      :- Perform(SetLink(p.inner, true, None), p);
      :- Perform(AddAddress(p.inner, p.innerAddress), p);
      o := Done;
    }

    method AddRoutes(p: Plan) returns (o: Outcome)
      requires host.Open(p) && host.kernel.inet == Some(GuardRules(p))
      requires OuterLink(p) in host.kernel.links && host.kernel.links[OuterLink(p)].up
      requires OnLink(host.kernel.links[OuterLink(p)], p.gateway)
      requires SubnetRoute(p) !in host.kernel.routes && GatewayRoute(p) !in host.kernel.routes
      requires OwnRule(p) !in host.kernel.rules
      modifies host`kernel, host`at, host`faults, host`reached
      ensures host.Open(p)
      ensures o.Done? ==> host.kernel == Routed(old(host.kernel), p)
      ensures host.Progress()
      ensures host.faults == old(host.faults) ==> o.Done?
    {
      hide Host.Open, Durable, AllDurable, Decode, Within, Covered, Eligible, OnLink;
      ghost var k := host.kernel;
      :- AddBothRoutes(p);
      assert host.kernel.routes == Routed(k, p).routes;
      :- Perform(AddRule(OwnRule(p)), p);
      o := Done;
    }

    method AddBothRoutes(p: Plan) returns (o: Outcome)
      requires host.Open(p) && host.kernel.inet == Some(GuardRules(p))
      requires OuterLink(p) in host.kernel.links && host.kernel.links[OuterLink(p)].up
      requires OnLink(host.kernel.links[OuterLink(p)], p.gateway)
      requires SubnetRoute(p) !in host.kernel.routes && GatewayRoute(p) !in host.kernel.routes
      modifies host`kernel, host`at, host`faults, host`reached
      ensures host.Open(p)
      ensures o.Done? ==> host.kernel == old(host.kernel).(routes := old(host.kernel).routes + {SubnetRoute(p)} + {GatewayRoute(p)})
      ensures host.Progress()
      ensures host.faults == old(host.faults) ==> o.Done?
    {
      hide Host.Open, Durable, AllDurable, Decode, Within, Covered, Eligible, OnLink;
      :- Perform(AddRoute(SubnetRoute(p)), p);
      :- Perform(AddRoute(GatewayRoute(p)), p);
      o := Done;
    }

    method EnableForwarding(p: Plan) returns (o: Outcome)
      requires host.Open(p) && host.kernel.inet == Some(GuardRules(p))
      modifies host`kernel, host`at, host`faults, host`reached
      ensures host.Open(p)
      ensures o.Done? ==> host.kernel == Forwarding(old(host.kernel))
      ensures host.Progress()
      ensures host.faults == old(host.faults) ==> o.Done?
    {
      hide Host.Open, Durable, AllDurable, Decode, Within, Covered, Eligible;
      :- Perform(SetIpForward("1"), p);
      :- Perform(SetRpFilterAll("0"), p);
      o := Done;
    }

    // ---- Restoring ----

    /** Complete rules survive a rollback's first step only if its guard swap did not take effect. */
    ghost predicate Barred(p: Plan)
      reads this, host
    {
      host.kernel.inet == Some(FullRules(p)) ==> host.swapRefused
    }

    /** An undo step whose failure is recorded, not propagated. */
    method Attempt(call: Call, undo: Undo, before: seq<Undo>, ghost p: Plan) returns (o: Outcome, errors: seq<Undo>)
      requires host.Open(p) && Barred(p) && Permitted(call, host.kernel, p, host.before)
      requires Effect(host.kernel, call).Some? ==> Effect(host.kernel, call).value.inet == host.kernel.inet
      modifies host`kernel, host`at, host`faults, host`reached
      ensures host.Open(p) && Barred(p) && !o.Threw?
      ensures host.kernel.inet == old(host.kernel.inet)
      ensures errors == before || errors == before + [undo]
      ensures o.Done? && errors == before ==> Did(old(host.kernel), call, host.kernel)
      ensures host.Progress()
      ensures host.faults == old(host.faults) && Effect(old(host.kernel), call).Some? ==> o.Done? && errors == before
      ensures host.faults == old(host.faults) ==> o.Done?
    {
      hide Host.Open, Permitted, Effect;
      o := Perform(call, p);
      assert host.kernel.inet == old(host.kernel.inet);
      errors := before;
      if o.Threw? {
        o := Done;
        errors := before + [undo];
      }
    }

    /** The policy rule, then the routes and address on the outer link while it is there. */
    method UndoRouting(p: Plan, before: seq<Undo>) returns (o: Outcome, errors: seq<Undo>)
      requires host.Open(p) && Barred(p)
      modifies host`kernel, host`at, host`faults, host`reached
      ensures host.Open(p) && Barred(p) && !o.Threw? && before <= errors
      ensures host.kernel.inet == old(host.kernel.inet)
      ensures o.Done? && errors == before && Undone(old(host.kernel), p, host.before, 1) ==>
                Undone(host.kernel, p, host.before, 5)
      ensures host.Progress()
      ensures host.faults == old(host.faults) ==> o.Done? && errors == before
    {
      hide Host.Open, Durable, AllDurable, Decode, Within, Covered, Eligible;
      errors := before;
      OpenFacts(p);
      RoutesNeedTheirLink(host.kernel, p, host.before);
      errors :- Attempt(DelRule(OwnRule(p)), RemoveRule, errors, p);
      assert errors == before && Undone(old(host.kernel), p, host.before, 1) ==> Undone(host.kernel, p, host.before, 2);
      OpenFacts(p);
      RoutesNeedTheirLink(host.kernel, p, host.before);
      if OuterLink(p) in host.kernel.links {
        errors :- UndoOuterLink(p, errors);
      }
      o := Done;
    }

    method UndoOuterLink(p: Plan, before: seq<Undo>) returns (o: Outcome, errors: seq<Undo>)
      requires host.Open(p) && Barred(p) && OuterLink(p) in host.kernel.links
      modifies host`kernel, host`at, host`faults, host`reached
      ensures host.Open(p) && Barred(p) && !o.Threw? && before <= errors
      ensures host.kernel.inet == old(host.kernel.inet)
      ensures o.Done? && errors == before && Undone(old(host.kernel), p, host.before, 2) ==>
                Undone(host.kernel, p, host.before, 5)
      ensures host.Progress()
      ensures host.faults == old(host.faults) ==> o.Done? && errors == before
    {
      hide Host.Open, Durable, AllDurable, Decode, Within, Covered, Eligible;
      errors := before;
      errors :- UndoRoutes(p, errors);
      errors :- Attempt(DelAddress(OuterLink(p), p.outerAddress), RemoveOuterAddress, errors, p);
      o := Done;
    }

    method UndoRoutes(p: Plan, before: seq<Undo>) returns (o: Outcome, errors: seq<Undo>)
      requires host.Open(p) && Barred(p) && OuterLink(p) in host.kernel.links
      modifies host`kernel, host`at, host`faults, host`reached
      ensures host.Open(p) && Barred(p) && !o.Threw? && before <= errors
      ensures host.kernel.inet == old(host.kernel.inet)
      ensures o.Done? && errors == before && Undone(old(host.kernel), p, host.before, 2) ==>
                Undone(host.kernel, p, host.before, 4)
      ensures o.Done? && errors == before ==> OuterLink(p) in host.kernel.links
      ensures host.Progress()
      ensures host.faults == old(host.faults) ==> o.Done? && errors == before
    {
      hide Host.Open, Durable, AllDurable, Decode, Within, Covered, Eligible;
      errors := before;
      errors :- Attempt(DelRoute(GatewayRoute(p)), RemoveGateway, errors, p);
      assert errors == before && Undone(old(host.kernel), p, host.before, 2) ==> Undone(host.kernel, p, host.before, 3);
      errors :- Attempt(DelRoute(SubnetRoute(p)), RemoveSubnet, errors, p);
      o := Done;
    }

    /** The inner address, and the VLAN link with everything on it. */
    method UndoLinks(p: Plan, before: seq<Undo>) returns (o: Outcome, errors: seq<Undo>)
      requires host.Open(p) && Barred(p)
      modifies host`kernel, host`at, host`faults, host`reached
      ensures host.Open(p) && Barred(p) && !o.Threw? && before <= errors
      ensures host.kernel.inet == old(host.kernel.inet)
      ensures o.Done? && errors == before && Undone(old(host.kernel), p, host.before, 5) ==>
                Undone(host.kernel, p, host.before, 7)
      ensures host.Progress()
      ensures host.faults == old(host.faults) ==> o.Done? && errors == before
    {
      hide Host.Open, Durable, AllDurable, Decode, Within, Covered, Eligible;
      OpenFacts(p);
      LinksThere(host.kernel, p, host.before);
      errors := before;
      errors :- Attempt(DelAddress(p.inner, p.innerAddress), RemoveInnerAddress, errors, p);
      if p.vlan.Some? && VLAN_LINK in host.kernel.links {
        errors :- Attempt(DelVlan, RemoveVlan, errors, p);
      }
      o := Done;
    }

    method DropTranslation(p: Plan, before: seq<Undo>) returns (o: Outcome, errors: seq<Undo>)
      requires host.Open(p) && Barred(p)
      modifies host`kernel, host`at, host`faults, host`reached
      ensures host.Open(p) && Barred(p) && !o.Threw? && before <= errors
      ensures host.kernel.inet == old(host.kernel.inet)
      ensures o.Done? && errors == before && Undone(old(host.kernel), p, host.before, 7) ==>
                Undone(host.kernel, p, host.before, 8)
      ensures host.Progress()
      ensures host.faults == old(host.faults) ==> o.Done? && errors == before
    {
      hide Host.Open, Durable, AllDurable, Decode, Within, Covered, Eligible;
      OpenFacts(p);
      errors := before;
      errors :- Attempt(Query, RemoveTranslation, errors, p);
      if errors == before && host.kernel.translation.Some? {
        OpenFacts(p);
        TranslationMayGo(host.kernel, p, host.before);
        errors :- Attempt(Nft([DeleteNat]), RemoveTranslation, errors, p);
      }
      o := Done;
    }

    /** The translation table and the two host-wide settings. */
    method UndoSettings(p: Plan, before: seq<Undo>) returns (o: Outcome, errors: seq<Undo>)
      requires host.Open(p) && Barred(p)
      requires state.ipForward == host.before.ipForward && state.rpFilterAll == host.before.rpFilterAll
      modifies host`kernel, host`at, host`faults, host`reached
      ensures host.Open(p) && Barred(p) && !o.Threw? && before <= errors
      ensures host.kernel.inet == old(host.kernel.inet)
      ensures o.Done? && errors == before && Undone(old(host.kernel), p, host.before, 7) ==>
                Undone(host.kernel, p, host.before, 10)
      ensures host.Progress()
      ensures host.faults == old(host.faults) ==> o.Done? && errors == before
    {
      hide Host.Open, Durable, AllDurable, Decode, Within, Covered, Eligible;
      errors := before;
      errors :- DropTranslation(p, errors);
      errors :- UndoSysctls(p, errors);
      o := Done;
    }

    method UndoSysctls(p: Plan, before: seq<Undo>) returns (o: Outcome, errors: seq<Undo>)
      requires host.Open(p) && Barred(p)
      requires state.ipForward == host.before.ipForward && state.rpFilterAll == host.before.rpFilterAll
      modifies host`kernel, host`at, host`faults, host`reached
      ensures host.Open(p) && Barred(p) && !o.Threw? && before <= errors
      ensures host.kernel.inet == old(host.kernel.inet)
      ensures o.Done? && errors == before && Undone(old(host.kernel), p, host.before, 8) ==>
                Undone(host.kernel, p, host.before, 10)
      ensures host.Progress()
      ensures host.faults == old(host.faults) ==> o.Done? && errors == before
    {
      hide Host.Open, Durable, AllDurable, Decode, Within, Covered, Eligible;
      errors := before;
      errors :- Attempt(SetIpForward(state.ipForward), RestoreForwarding, errors, p);
      assert errors == before && Undone(old(host.kernel), p, host.before, 8) ==> Undone(host.kernel, p, host.before, 9);
      errors :- Attempt(SetRpFilterAll(state.rpFilterAll), RestoreFilter, errors, p);
      o := Done;
    }

    /** Each port back to its recorded settings, the outer one first. */
    method UndoPorts(p: Plan, before: seq<Undo>) returns (o: Outcome, errors: seq<Undo>)
      requires host.Open(p) && Barred(p) && Eligible(host.before, p)
      requires state.baseline == [InfoOf(host.before, p.outer), InfoOf(host.before, p.inner)]
      modifies host`kernel, host`at, host`faults, host`reached
      ensures host.Open(p) && Barred(p) && !o.Threw? && before <= errors
      ensures host.kernel.inet == old(host.kernel.inet)
      ensures o.Done? && errors == before && Undone(old(host.kernel), p, host.before, 10) ==>
                Undone(host.kernel, p, host.before, 12)
      ensures host.Progress()
      ensures host.faults == old(host.faults) ==> o.Done? && errors == before
    {
      hide Host.Open, Durable, AllDurable, Decode, Within, Covered, Barred;
      errors := before;
      for i := 0 to |state.baseline|
        invariant host.Open(p) && Barred(p) && before <= errors && host.kernel.inet == old(host.kernel.inet)
        invariant errors == before && Undone(old(host.kernel), p, host.before, 10) ==>
                    Undone(host.kernel, p, host.before, 10 + i)
        invariant host.Progress() && (host.faults == old(host.faults) ==> errors == before)
      {
        var info := state.baseline[i];
        OpenFacts(p);
        LinksThere(host.kernel, p, host.before);
        ghost var k := host.kernel;
        o := RestorePort(info, p);
        if o.Crashed? { return; }
        if o.Threw? { errors := errors + [Undo.RestorePort(info.name)]; }
        assert o.Done? ==> Undone(k, p, host.before, 10 + i) ==> Undone(host.kernel, p, host.before, 11 + i);
      }
      o := Done;
    }

    method RestorePort(info: PortInfo, p: Plan) returns (o: Outcome)
      requires host.Open(p) && Barred(p) && OwnLink(p, info.name) && info.name in host.kernel.links
      modifies host`kernel, host`at, host`faults, host`reached
      ensures host.Open(p) && Barred(p) && host.kernel.inet == old(host.kernel.inet)
      ensures o.Done? && !Marks(old(host.kernel)) ==> host.kernel == old(host.kernel).(links :=
        old(host.kernel).links[info.name := old(host.kernel).links[info.name].(
          up := info.up, mac := info.mac, disableIpv6 := info.disableIpv6, rpFilter := info.rpFilter)])
      ensures host.Progress()
      ensures host.faults == old(host.faults) ==> o.Done?
    {
      hide Host.Open, Barred, Strip;
      :- PerformOnLink(SetLink(info.name, false, None), p);
      :- PerformOnLink(SetLink(info.name, false, Some(info.mac)), p);
      :- PerformOnLink(SetDisableIpv6(info.name, info.disableIpv6), p);
      :- PerformOnLink(SetRpFilter(info.name, info.rpFilter), p);
      :- PerformOnLink(SetLink(info.name, info.up, None), p);
      o := Done;
    }

    method PerformOnLink(call: Call, p: Plan) returns (o: Outcome)
      requires host.Open(p) && Barred(p)
      requires (call.SetLink? || call.SetDisableIpv6? || call.SetRpFilter?) && OwnLink(p, call.link)
      requires call.link in host.kernel.links
      modifies host`kernel, host`at, host`faults, host`reached
      ensures host.Open(p) && Barred(p) && host.kernel.inet == old(host.kernel.inet)
      ensures o.Done? ==> host.kernel.links == Effect(old(host.kernel), call).value.links
      ensures o.Done? && !Marks(old(host.kernel)) ==> host.kernel == Effect(old(host.kernel), call).value
      ensures host.Progress()
      ensures host.faults == old(host.faults) ==> o.Done?
    {
      hide Host.Open;
      o := Perform(call, p);
    }

    /** Forwarding is shut before anything is undone: the guard replaces whatever rules are loaded,
        and only then are the marked connections deleted. A failure is a refused swap exactly if the
        complete rules are still there, until a guard takes their place. */
    method ShutForwarding(p: Plan) returns (o: Outcome)
      requires host.Open(p) && host.journal.value.status.RollingBack?
      modifies host`kernel, host`at, host`faults, host`reached, host`swapRefused
      ensures host.Open(p) && (!o.Crashed? ==> Barred(p))
      ensures old(host.kernel).inet.Some? ==> host.kernel.inet.Some?
      ensures o.Done? ==> Undone(host.kernel, p, host.before, 1)
      ensures host.Progress()
      ensures host.faults == old(host.faults) ==> o.Done?
      ensures host.swapRefused <==>
        host.kernel.inet != Some(GuardRules(p)) &&
        (old(host.swapRefused) || (o.Threw? && host.kernel.inet == Some(FullRules(p))))
    {
      hide Durable, AllDurable, Decode, Within, Covered, Eligible, Effect, Permitted, NftEffect, Witnessed;
      assert |GuardRules(p)| != |FullRules(p)|;
      o := LoadGuardOver(p);
      if o.Threw? && host.kernel.inet == Some(FullRules(p)) {
        AdmitRefusal(p);
      } else if host.kernel.inet == Some(GuardRules(p)) {
        ForgetRefusal(p);
      }
    }

    ghost method AdmitRefusal(p: Plan)
      requires host.Open(p) && host.journal.value.status.RollingBack? && host.kernel.inet == Some(FullRules(p))
      requires host.faults > 0
      modifies host`swapRefused, host`reached
      ensures host.Open(p) && host.swapRefused && old(host.reached) <= host.reached
    {
      hide AllDurable, Decode, Within, Covered, Eligible, Describes, Installed, Witnessed;
      host.swapRefused := true;
      RefusalExtends(host.reached, host.Now(), host.faults, host.before);
      host.reached := host.reached + {host.Now()};
    }

    ghost method ForgetRefusal(p: Plan)
      requires host.Open(p) && host.kernel.inet == Some(GuardRules(p))
      modifies host`swapRefused, host`reached
      ensures host.Open(p) && !host.swapRefused && old(host.reached) <= host.reached
    {
      hide AllDurable, Decode, Within, Covered, Eligible, Describes, Installed, Witnessed;
      ghost var s := host.Now();
      assert |GuardRules(p)| != |FullRules(p)|;
      host.swapRefused := false;
      ReachedExtends(host.reached, host.faults, s, host.Now(), host.faults, host.before);
      host.reached := host.reached + {host.Now()};
    }

    method LoadGuardOver(p: Plan) returns (o: Outcome)
      requires host.Open(p)
      modifies host`kernel, host`at, host`faults, host`reached
      ensures host.Open(p) && (old(host.kernel).inet.Some? ==> host.kernel.inet.Some?)
      ensures o.Done? ==> Undone(host.kernel, p, host.before, 1)
      ensures host.Progress()
      ensures host.faults == old(host.faults) ==> o.Done?
    {
      hide Host.Open, Durable, AllDurable, Decode, Covered, Eligible, NftEffect;
      :- SwapRules(p);
      OpenFacts(p);
      :- Perform(ClearMarked, p);
      o := Done;
    }

    method SwapRules(p: Plan) returns (o: Outcome)
      requires host.Open(p)
      modifies host`kernel, host`at, host`faults, host`reached
      ensures host.Open(p) && (old(host.kernel).inet.Some? ==> host.kernel.inet.Some?)
      ensures o.Done? ==> host.kernel.inet == Some(GuardRules(p))
      ensures host.Progress()
      ensures host.faults == old(host.faults) ==> o.Done?
    {
      hide Host.Open, Durable, AllDurable, Decode, Within, Covered, Eligible;
      OpenFacts(p);
      :- Perform(Query, p);
      OpenFacts(p);
      var batch := if host.kernel.inet.Some? then [DeleteInet, AddInet(GuardRules(p))] else [AddInet(GuardRules(p))];
      Batches(host.kernel, p);
      o := Perform(Nft(batch), p);
    }

    /** The guard itself, the last thing to go. */
    method DropGuard(p: Plan) returns (o: Outcome)
      requires host.Open(p) && Undone(host.kernel, p, host.before, 12)
      modifies host`kernel, host`at, host`faults, host`reached
      ensures host.Open(p)
      ensures o.Done? || host.kernel.inet.None? ==> host.kernel == Strip(host.before)
      ensures host.Progress()
      ensures host.faults == old(host.faults) ==> o.Done?
    {
      hide Host.Open, Durable, AllDurable, Decode, Within, Covered, Eligible, Undone;
      OpenFacts(p);
      GuardMayGo(host.kernel, p, host.before);
      :- Perform(Query, p);
      o := Perform(Nft([DeleteInet]), p);
    }

    // ---- The journal ----

    method Save() returns (o: Outcome)
      requires host.Safe() && Durable(Snapshot(host.kernel, Some(state), host.swapRefused), host.before)
      requires host.journal.None? ==> !state.status.Inactive?
      modifies `unsaved, host`kernel, host`journal, host`at, host`faults, host`reached
      ensures host.Safe() && Drifted(old(host.kernel), host.kernel) && Current()
      ensures host.journal == if host.oracle(old(host.at)).fault.TakesEffect() then Some(state) else old(host.journal)
      ensures unsaved <==> !host.oracle(old(host.at)).fault.TakesEffect() && old(host.journal) != Some(state)
      ensures Excused()
      ensures o == host.oracle(old(host.at)).fault.Ends()
      ensures host.journal == Some(state) || (!o.Done? && host.journal == old(host.journal))
      ensures host.Progress() && (host.faults == old(host.faults) ==> o.Done?)
    {
      hide Durable, AllDurable;
      ghost var s, t := host.Now(), Snapshot(host.kernel, Some(state), host.swapRefused);
      o := host.Put(state);
      unsaved := host.journal != Some(state);
      DurableDrifts(if host.journal == Some(state) then t else s, host.Now(), host.before);
      ReachedExtends(old(host.reached), old(host.faults), s, host.Now(), host.faults, host.before);
    }

    /** Before a rollback changes anything, the journal may say that it is under way. */
    lemma MayRollBack(p: Plan)
      requires host.Safe() && Engaged() && Decode(state.config) == Some(p)
      ensures Eligible(host.before, p) && Describes(state, p, host.before)
      ensures var s := Snapshot(host.kernel, Some(state.(status := RollingBack)), host.swapRefused);
              Durable(s, host.before)
      ensures Within(host.kernel, p, host.before) && Covered(host.kernel, host.before)
    {
      hide Decode, Eligible, Within, Covered, Installed, AllDurable, OwnTables, Quiet;
      if Strip(host.kernel) == Strip(host.before) {
        CleanStart(host.kernel, p, host.before);
      }
    }

    lemma CleanStart(k: Kernel, p: Plan, b: Kernel)
      requires Strip(k) == Strip(b) && Eligible(b, p)
      ensures Within(k, p, b) && Covered(k, b) && !Leaky(k, p)
    {
      CleanIsWithin(k, p, b);
      assert k == Strip(b).(connections := k.connections) by { assert k == Strip(k).(connections := k.connections); }
    }

    /** While a transaction is open, memory that names it is valid. */
    lemma OpenIsValid(p: Plan)
      requires host.Open(p) && Describes(state, p, host.before)
      requires !state.status.Inactive? && !Settled(state.status)
      ensures Valid() && Durable(Snapshot(host.kernel, Some(state), host.swapRefused), host.before)
    {
      hide Decode, Eligible, Within, Covered, Installed, AllDurable;
    }

    // ---- Operations ----

    /** Undoes the transaction memory names. However it ends the host stays recoverable; when it
        succeeds the host is exactly as it was, and the guard goes only after everything else. */
    method Restore() returns (o: Outcome)
      requires Valid() && !state.status.Inactive?
      modifies `state, `unsaved, host
      ensures Excused()
      ensures Valid() && (!o.Crashed? ==> Current())
      ensures state.config == old(state.config)
      ensures o.Done? ==> state.status.Inactive? && host.journal == Some(state) && state.errors == []
      ensures state.status.Inactive? ==> host.kernel == Strip(host.before)
      ensures !state.status.Inactive? ==> !Settled(state.status)
      ensures old(host.kernel.inet).Some? && host.kernel.inet.None? ==> host.kernel == Strip(host.before)
      ensures host.Progress() && (host.faults == old(host.faults) ==> o.Done?)
    {
      hide AllDurable, Durable, Decode, Within, Covered, Eligible, Installed, Barred, Undone, Quiet, Describes;
      var p := RecordedPlan();
      MayRollBack(p);
      SameDescription(state, state.(status := RollingBack), p, host.before);
      state := state.(status := RollingBack);
      :- Save();
      o := RestoreOpen(p);
    }

    /** The configuration of a recorded transaction always parses back to its plan. */
    method RecordedPlan() returns (p: Plan)
      requires Decode(state.config).Some?
      ensures Decode(state.config) == Some(p)
    {
      var r := ConfigFromJson(state.config);
      assert r.Ok?;
      p := PlanOf(r.value);
    }

    method RestoreOpen(p: Plan) returns (o: Outcome)
      requires host.Open(p) && host.journal.value.status.RollingBack? && Describes(state, p, host.before) && Eligible(host.before, p) && state.status.RollingBack?
      modifies `state, `unsaved, host
      ensures Excused()
      ensures Valid() && (!o.Crashed? ==> Current())
      ensures state.config == old(state.config)
      ensures o.Done? ==> state.status.Inactive? && host.journal == Some(state) && state.errors == []
      ensures state.status.Inactive? ==> host.kernel == Strip(host.before)
      ensures !state.status.Inactive? ==> !Settled(state.status)
      ensures old(host.kernel.inet).Some? && host.kernel.inet.None? ==> host.kernel == Strip(host.before)
      ensures host.Progress() && (host.faults == old(host.faults) ==> o.Done?)
    {
      hide Host.Open, AllDurable, Durable, Decode, Within, Covered, Eligible, Installed, Barred, Undone, Quiet, Describes, Valid;
      var errors: seq<Undo>;
      o, errors := UndoAll(p);
      OpenIsValid(p);
      if o.Crashed? { return; }
      // The guard stays if anything else could not be restored.
      if errors == [] {
        o := DropGuard(p);
        OpenIsValid(p);
        if o.Crashed? { return; }
        if o.Threw? { errors := [RemoveGuard]; }
      }
      SameDescription(state, state.(status := if errors == [] then Inactive else RollbackFailed, errors := errors), p, host.before);
      state := state.(status := if errors == [] then Inactive else RollbackFailed, errors := errors);
      assert host.before.inet.None? by { EligibleHasNoTable(host.before, p); }
      o := Conclude(p);
    }

    /** Every undo step but the guard's, each tried whatever became of the others. */
    method UndoAll(p: Plan) returns (o: Outcome, errors: seq<Undo>)
      requires host.Open(p) && host.journal.value.status.RollingBack? && Describes(state, p, host.before) && Eligible(host.before, p)
      modifies host`kernel, host`at, host`faults, host`reached, host`swapRefused
      ensures host.Open(p) && !o.Threw?
      ensures o.Done? && errors == [] ==> Undone(host.kernel, p, host.before, 12)
      ensures old(host.kernel).inet.Some? ==> host.kernel.inet.Some?
      ensures host.Progress() && (host.faults == old(host.faults) ==> o.Done? && errors == [])
    {
      hide Host.Open, AllDurable, Durable, Decode, Within, Covered, Eligible, Installed, Barred, Undone;
      errors := [];
      o := ShutForwarding(p);
      if o.Crashed? { return; }
      if o.Threw? { errors := [SwapGuard]; }
      errors :- UndoRouting(p, errors);
      errors :- UndoLinks(p, errors);
      errors :- UndoSettings(p, errors);
      errors :- UndoPorts(p, errors);
      o := Done;
    }

    /** Records how the rollback went. */
    method Conclude(p: Plan) returns (o: Outcome)
      requires host.Open(p) && Describes(state, p, host.before) && Eligible(host.before, p)
      requires state.status == if state.errors == [] then Inactive else RollbackFailed
      requires state.errors == [] ==> host.kernel == Strip(host.before)
      modifies `unsaved, host
      ensures Excused()
      ensures Valid() && Current()
      ensures o.Done? ==> state.errors == [] && host.journal == Some(state)
      ensures state.errors == [] ==> host.kernel == Strip(host.before)
      ensures host.kernel.inet == old(host.kernel.inet)
      ensures !Marks(old(host.kernel)) ==> host.kernel == old(host.kernel)
      ensures host.Progress() && (host.faults == old(host.faults) ==> o.Done? || state.errors != [])
      ensures host.faults == old(host.faults) ==> !o.Crashed?
    {
      hide AllDurable, Decode, Within, Covered, Installed;
      assert host.before.inet.None?;
      o := Save();
      if o.Done? && state.errors != [] { o := Threw; }
    }

    /** A read-only command: it may fail, and time passes. */
    method Read() returns (o: Outcome)
      requires Valid()
      modifies host`kernel, host`at, host`faults, host`reached
      ensures Valid() && Drifted(old(host.kernel), host.kernel)
      ensures host.Progress() && (host.faults == old(host.faults) ==> o.Done?)
    {
      hide Durable, AllDurable, Decode, Describes, Eligible, Installed;
      ghost var s := host.Now();
      o := host.Invoke(Query);
      DurableDrifts(s, host.Now(), host.before);
      ReachedExtends(old(host.reached), old(host.faults), s, host.Now(), host.faults, host.before);
    }

    /** Nothing on the host uses a reserved name or number. */
    method CheckReserved() returns (o: Outcome)
      requires Valid()
      modifies host`kernel, host`at, host`faults, host`reached
      ensures Valid() && Drifted(old(host.kernel), host.kernel)
      ensures o.Done? ==> Unreserved(host.kernel)
      ensures host.Progress()
      ensures host.faults == old(host.faults) ==> (o.Done? <==> Unreserved(old(host.kernel))) && !o.Crashed?
    {
      hide Valid;
      ghost var k := host.kernel;
      :- Read();
      if host.kernel.translation.Some? { return Threw; }
      :- Read();
      if host.kernel.inet.Some? || VLAN_LINK in host.kernel.links { return Threw; }
      :- Read();
      if exists r :: r in host.kernel.routes && r.table == TABLE { return Threw; }
      :- Read();
      if exists r :: r in host.kernel.rules && r.priority == PRIORITY { return Threw; }
      o := Done;
    }

    /** Both ports are there and unused; their settings are noted. */
    method ReadPorts(p: Plan) returns (o: Outcome, baseline: seq<PortInfo>)
      requires Valid()
      modifies host`kernel, host`at, host`faults, host`reached
      ensures Valid() && Drifted(old(host.kernel), host.kernel)
      ensures o.Done? ==> UnusedPort(host.kernel, p.outer) && UnusedPort(host.kernel, p.inner)
      ensures o.Done? ==> baseline == [InfoOf(host.kernel, p.outer), InfoOf(host.kernel, p.inner)]
      ensures host.Progress() && (host.faults == old(host.faults) ==> !o.Crashed?)
      ensures host.faults == old(host.faults) ==>
        (o.Done? <==> UnusedPort(old(host.kernel), p.outer) && UnusedPort(old(host.kernel), p.inner))
    {
      hide Valid;
      ghost var k := host.kernel;
      baseline := [];
      var names := [p.outer, p.inner];
      for i := 0 to 2
        invariant Valid() && Drifted(k, host.kernel)
        invariant host.Progress()
        invariant |baseline| == i
        invariant forall j | 0 <= j < i :: UnusedPort(host.kernel, names[j]) && baseline[j] == InfoOf(host.kernel, names[j])
      {
        var name := names[i];
        if name !in host.kernel.links { return Threw, baseline; }
        o := Read();
        if !o.Done? { return; }
        var link := host.kernel.links[name];
        if name == LOOPBACK || link.enslaved || link.addresses != {} { return Threw, baseline; }
        o := Read();
        if !o.Done? { return; }
        o := Read();
        if !o.Done? { return; }
        baseline := baseline + [InfoOf(host.kernel, name)];
      }
      assert names[0] == p.outer && names[1] == p.inner;
      o := Done;
    }

    /** Installs a configuration behind a write-ahead journal entry, and undoes it if anything fails. */
    method Apply(c: NetworkConfig, now: int) returns (o: Outcome)
      requires Valid()
      modifies this, host
      ensures Excused()
      ensures Valid() && host.Progress() && (!o.Crashed? ==> old(Current()) ==> Current())
      ensures !enabled || !old(state).status.Inactive? || !SoundPlan(c) ==> o.Threw? && state == old(state) && unchanged(host)
      ensures o.Done? ==> SoundPlan(c) && state.status.AwaitingConfirmation? && state.config == ConfigJson(c)
      ensures o.Done? ==> host.journal == Some(state) && deadline == now + 60
      ensures o.Done? ==> Installation.InForce(host.kernel, c, host.before)
      ensures o.Done? ==> state.errors == old(state).errors
      ensures Settled(state.status) ==> o.Done? || o.Crashed? || state == old(state)
      ensures state.status.Confirmed? ==> state == old(state)
      ensures host.faults == old(host.faults) ==>
        (o.Done? <==> enabled && old(state).status.Inactive? && SoundPlan(c) && Installation.Unoccupied(c, host.before))
      ensures host.faults == old(host.faults) && old(state).status.Inactive? && !o.Done? ==> state.status.Inactive?
      ensures host.faults == old(host.faults) ==> !o.Crashed?
    {
      hide Valid, SoundPlan, Unreserved, UnusedPort, Installable, Eligible, Installation.InForce, Installed, PlanOf, Strip, Installation.Unoccupied;
      hide Describes, Durable, Decode, ConfigOf;
      if !enabled { return Threw; }
      if !state.status.Inactive? { return Threw; }
      var v := ConfigFromJson(ConfigJson(c));
      PlanRoundTrip(c);
      if v.Err? { return Threw; }
      CleanWhenInactive();
      Installation.UnoccupiedIsEligible(c, host.before);
      o := ApplyPlan(c, now);
      if o.Done? {
        ghost var recorded, p := RecordFacts();
        assert recorded == c;
        Installation.InstalledIsInForce(host.kernel, c, host.before);
      }
    }

    method ApplyPlan(c: NetworkConfig, now: int) returns (o: Outcome)
      requires Valid() && enabled && state.status.Inactive? && SoundPlan(c)
      modifies this, host
      ensures Excused()
      ensures Valid() && host.Progress() && (!o.Crashed? ==> old(Current()) ==> Current())
      ensures o.Done? ==> state.status.AwaitingConfirmation? && state.config == ConfigJson(c)
      ensures o.Done? ==> host.journal == Some(state) && deadline == now + CONFIRMATION_SECONDS
      ensures o.Done? ==> state.errors == old(state).errors
      ensures Settled(state.status) ==> (o.Done? || o.Crashed?) && !state.status.Confirmed?
      ensures host.faults == old(host.faults) ==>
        !o.Crashed? && (o.Done? <==> Eligible(host.before, PlanOf(c)) && Installable(host.before, PlanOf(c)))
      ensures host.faults == old(host.faults) && !o.Done? ==> state.status.Inactive?
    {
      hide Valid, SoundPlan, Installable, Eligible, Describes, PlanOf, Decode, Durable;
      var p := PlanFor(c);
      var r;
      o, r := PrepareRecord(c, p);
      if !o.Done? { return; }
      // Write-ahead: the journal names the transaction before the first mutation.
      MayStart(r, p);
      state := r;
      o := Save();
      StartedIsValid(p);
      if !o.Done? { return; }
      o := InstallAndAwait(p, now);
      if o.Threw? {
        var undone := Restore();
        o := if undone.Crashed? then Crashed else Threw;
      }
    }

    /** The body of the guarded part of `apply`: install, then record that confirmation is awaited. */
    method InstallAndAwait(p: Plan, now: int) returns (o: Outcome)
      requires host.Open(p) && host.journal == Some(state) && Describes(state, p, host.before) && state.status.Applying?
      requires Strip(host.kernel) == Strip(host.before) && Eligible(host.before, p)
      modifies this, host
      ensures Excused()
      ensures Valid() && host.Progress() && (o.Done? ==> Current())
      ensures state == old(state) || state == old(state).(status := AwaitingConfirmation)
      ensures o.Done? ==> state.status.AwaitingConfirmation? && host.journal == Some(state)
      ensures o.Done? ==> deadline == now + CONFIRMATION_SECONDS
      ensures host.faults == old(host.faults) ==> !o.Crashed? && (o.Done? <==> Installable(host.before, p))
    {
      hide Host.Open, Valid, Decode, Describes, Eligible, Installable, Installed, Durable;
      o := Install(host.kernel, p);
      OpenIsValid(p);
      if !o.Done? { return; }
      MayAwait(p);
      SameDescription(state, state.(status := AwaitingConfirmation), p, host.before);
      state := state.(status := AwaitingConfirmation);
      deadline := now + CONFIRMATION_SECONDS;
      o := Save();
      SettledIsValid(p);
    }

    method PrepareRecord(c: NetworkConfig, p: Plan) returns (o: Outcome, r: Record)
      requires Valid() && state.status.Inactive? && SoundPlan(c) && Decode(ConfigJson(c)) == Some(p) && Coherent(p)
      modifies host`kernel, host`at, host`faults, host`reached
      ensures Valid() && host.Progress()
      ensures o.Done? ==> Eligible(host.before, p) && Describes(r, p, host.before)
      ensures o.Done? ==> r.status.Applying? && r.config == ConfigJson(c) && r.errors == state.errors
      ensures host.faults == old(host.faults) ==> !o.Crashed? && (o.Done? <==> Eligible(host.before, p))
    {
      hide Valid, SoundPlan, Eligible, PlanOf, Decode, Describes, Coherent;
      ghost var b := host.before;
      r := state;
      CleanWhenInactive();
      EligibleWhenFree(p, host.kernel, b);
      :- CheckReserved();
      var baseline;
      o, baseline := ReadPorts(p);
      if !o.Done? { return; }
      :- Read();   // the nft syntax check
      :- Read();
      :- Read();
      CleanWhenInactive();
      EligibleWhenFree(p, host.kernel, b);
      r := Record(Applying, ConfigJson(c), baseline, host.kernel.ipForward, host.kernel.rpFilterAll, state.errors);
      RecordDescribes(c, r, p, host.kernel, b);
    }

    lemma CleanWhenInactive()
      requires Valid() && state.status.Inactive?
      ensures Strip(host.kernel) == Strip(host.before)
      ensures forall r | r in host.before.routes :: r.dev in host.before.links
    {
      hide Durable, AllDurable, Strip;
    }

    method PlanFor(c: NetworkConfig) returns (p: Plan)
      requires SoundPlan(c)
      ensures p == PlanOf(c) && Decode(ConfigJson(c)) == Some(p) && Coherent(p)
    {
      p := PlanOf(c);
      DecodeEncoded(c);
    }

    lemma MayStart(r: Record, p: Plan)
      requires Valid() && state.status.Inactive? && Describes(r, p, host.before) && r.status.Applying?
      ensures Durable(Snapshot(host.kernel, Some(r), host.swapRefused), host.before) && host.Safe()
      ensures Strip(host.kernel) == Strip(host.before) && Eligible(host.before, p)
    {
      hide Decode, Within, Covered, Eligible, Installed, AllDurable, Leaky;
      CleanStart(host.kernel, p, host.before);
    }

    lemma StartedIsValid(p: Plan)
      requires host.Safe() && Strip(host.kernel) == Strip(host.before)
      requires Describes(state, p, host.before) && state.status.Applying?
      ensures Valid()
      ensures host.journal == Some(state) ==> host.Open(p)
    {
      hide Durable, AllDurable, Strip, Decode, Eligible;
    }

    lemma MayAwait(p: Plan)
      requires host.Open(p) && Describes(state, p, host.before)
      requires Installable(host.before, p) && Eligible(host.before, p)
      requires Strip(host.kernel) == Strip(Installed(host.before, p))
      ensures Durable(Snapshot(host.kernel, Some(state.(status := AwaitingConfirmation)), host.swapRefused), host.before)
      ensures host.Safe() && !Idle(host.journal)
      ensures Decode(host.journal.value.config) == Some(p) && Decode(state.config) == Some(p)
    {
      hide Decode, Within, Covered, Eligible, Installed, AllDurable, Leaky;
    }

    lemma SettledIsValid(p: Plan)
      requires host.Safe() && Describes(state, p, host.before) && Settled(state.status)
      requires Installable(host.before, p) && Eligible(host.before, p)
      requires Strip(host.kernel) == Strip(Installed(host.before, p))
      requires !Idle(host.journal) && Decode(host.journal.value.config) == Some(p)
      ensures Valid()
    {
      hide Durable, AllDurable, Strip, Decode, Eligible, Installed;
    }

    /** The original host, with nothing in memory or journal left to undo. */
    ghost predicate Undid()
      reads this, host
    {
      state.status.Inactive? && host.journal == Some(state) && host.kernel == Strip(host.before)
    }

    /** Rolls back a configuration whose confirmation is overdue; does nothing else. */
    method Tick(now: int) returns (o: Outcome)
      requires Valid()
      modifies `state, `unsaved, host
      ensures Excused()
      ensures Valid() && host.Progress() && (!o.Crashed? ==> old(Current()) ==> Current())
      ensures !(enabled && old(state).status.AwaitingConfirmation? && now >= deadline) ==>
                o.Done? && state == old(state) && unchanged(host)
      ensures enabled && old(state).status.AwaitingConfirmation? && now >= deadline ==>
                !Settled(state.status) && (o.Done? ==> state.status.Inactive? && Undid())
      ensures host.faults == old(host.faults) ==> o.Done?
    {
      hide Valid;
      if enabled && state.status.AwaitingConfirmation? && now >= deadline {
        o := Restore();
      } else {
        o := Done;
      }
    }

    /** Keeps a configuration that was installed completely and whose deadline has not passed. */
    method Confirm(now: int) returns (o: Outcome)
      requires Valid()
      modifies `state, `unsaved, host
      ensures Excused()
      ensures Valid() && host.Progress() && (!o.Crashed? ==> old(Current()) ==> Current())
      ensures !enabled ==> o.Threw? && state == old(state) && unchanged(host)
      ensures enabled && !old(state).status.AwaitingConfirmation? ==> o.Threw? && state == old(state) && unchanged(host)
      ensures o.Done? ==> state.status.Confirmed? && host.journal == Some(state)
      ensures state.status.Confirmed? && !old(state).status.Confirmed? ==>
                enabled && old(state).status.AwaitingConfirmation? && now < deadline &&
                state == old(state).(status := Confirmed)
      ensures enabled && old(state).status.AwaitingConfirmation? && now < deadline ==>
        && state == old(state).(status := Confirmed) && o == host.oracle(old(host.at)).fault.Ends()
        && host.journal == if host.oracle(old(host.at)).fault.TakesEffect() then Some(state) else old(host.journal)
      ensures host.faults == old(host.faults) && enabled && old(state).status.AwaitingConfirmation? && now >= deadline ==>
        Undid()
      ensures host.faults == old(host.faults) ==>
        !o.Crashed? && (o.Done? <==> enabled && old(state).status.AwaitingConfirmation? && now < deadline)
    {
      hide Valid, Durable, Decode, Describes, Eligible, Installed, Installable, PlanOf, SoundPlan, ConfigOf, Host.Safe;
      if !enabled { return Threw; }
      :- Tick(now);
      if !state.status.AwaitingConfirmation? { return Threw; }
      ghost var c, p := RecordFacts();
      MayConfirm(p);
      SameDescription(state, state.(status := Confirmed), p, host.before);
      state := state.(status := Confirmed);
      o := Save();
      SettledIsValid(p);
    }

    /** Restores the host on demand. */
    method Rollback() returns (o: Outcome)
      requires Valid()
      modifies `state, `unsaved, host
      ensures Excused()
      ensures Valid() && host.Progress() && (!o.Crashed? ==> old(Current()) ==> Current())
      ensures !enabled ==> o.Threw? && state == old(state) && unchanged(host)
      ensures old(state).status.Inactive? ==> state == old(state) && unchanged(host)
      ensures o.Done? ==> enabled && state.status.Inactive?
      ensures enabled ==> !Settled(state.status)
      ensures o.Done? && !old(state).status.Inactive? ==> host.kernel == Strip(host.before) && host.journal == Some(state)
      ensures host.faults == old(host.faults) && enabled ==> o.Done?
    {
      hide Valid;
      if !enabled { return Threw; }
      o := Done;
      if !state.status.Inactive? { o := Restore(); }
    }

    /** Start-up with a journal: undo what it names, and install a confirmed configuration afresh.
        The two readings of the clock are the ones `apply` and `confirm` make. */
    method Recover(applied: int, confirmed: int) returns (o: Outcome)
      requires Valid()
      modifies this, host
      ensures Excused()
      ensures Valid() && host.Progress() && (!o.Crashed? ==> old(Current()) ==> Current())
      ensures !enabled || old(state).status.Inactive? ==> o.Done? && state == old(state) && unchanged(host)
      ensures o.Done? && enabled ==>
                state.status == if old(state).status.Confirmed? then Confirmed else Inactive
      ensures host.faults == old(host.faults) ==>
        if enabled && old(state).status.Confirmed? && confirmed >= applied + 60
        then o.Threw? && Undid() else o.Done?
      ensures o.Done? && enabled && old(state).status.Confirmed? ==>
                SameTransaction(state, old(state)) && Strip(host.kernel) == Strip(old(host.kernel))
      ensures o.Done? && enabled && !old(state).status.Inactive? ==> host.journal == Some(state)
      ensures o.Done? && enabled && !old(state).status.Inactive? && !old(state).status.Confirmed? ==>
                host.kernel == Strip(host.before)
    {
      hide Valid, SoundPlan, Installable, Eligible, PlanOf, ConfigOf, Decode, Describes, Installed;
      hide Installation.Unoccupied;
      o := Done;
      if !state.status.Inactive? && enabled {
        var wasConfirmed, desired := state.status.Confirmed?, state.config;
        ghost var r := state;
        ghost var c0, p := RecordFacts();
        :- Restore();
        if wasConfirmed {
          :- Reinstate(desired, applied, confirmed, c0, p);
          SameFacts(r, state, p, host.before);
        }
      }
    }

    /** A recorded configuration is applied to the original host and confirmed. */
    method Reinstate(desired: Json, applied: int, confirmed: int, ghost c: NetworkConfig, ghost p: Plan) returns (o: Outcome)
      requires Valid() && enabled && state.status.Inactive? && ConfigOf(desired) == Some(c) && desired == ConfigJson(c)
      requires SoundPlan(c) && p == PlanOf(c) && Eligible(host.before, p) && Installable(host.before, p)
      modifies this, host
      ensures Excused()
      ensures Valid() && host.Progress() && (!o.Crashed? ==> old(Current()) ==> Current())
      ensures o.Done? ==> state.status.Confirmed? && state.config == desired && host.journal == Some(state)
      ensures o.Done? ==> Describes(state, p, host.before) && Strip(host.kernel) == Strip(Installed(host.before, p))
      ensures host.faults == old(host.faults) ==> if confirmed >= applied + 60 then o.Threw? && Undid() else o.Done?
    {
      hide Valid, SoundPlan, Installable, Eligible, PlanOf, ConfigOf, Decode, Describes, Installed;
      hide Installation.InForce, Installation.Unoccupied;
      var r := ConfigFromJson(desired);
      assert r.Ok? && r.value == c;
      StillUnoccupied(c, p);
      :- Apply(r.value, applied);
      :- Confirm(confirmed);
      ghost var recorded, q := RecordFacts();
      assert recorded == c;
      o := Done;
    }

    /** The original host can take the configuration that was in force on it. */
    lemma StillUnoccupied(c: NetworkConfig, p: Plan)
      requires Valid() && state.status.Inactive? && SoundPlan(c) && p == PlanOf(c)
      requires Eligible(host.before, p) && Installable(host.before, p)
      ensures Installation.Unoccupied(c, host.before)
    {
      hide Valid, SoundPlan, Installation.Unoccupied, Eligible, Installable, PlanOf;
      CleanWhenInactive();
      Installation.UnoccupiedIsEligible(c, host.before);
    }

    /** What a record in force says: its configuration in full, and the host it stands for. */
    lemma RecordFacts() returns (c: NetworkConfig, p: Plan)
      requires Valid() && !state.status.Inactive?
      ensures ConfigOf(state.config) == Some(c) && state.config == ConfigJson(c) && SoundPlan(c) && p == PlanOf(c)
      ensures Decode(state.config) == Some(p) && Describes(state, p, host.before)
      ensures Eligible(host.before, p) && host.Safe()
      ensures Settled(state.status) ==> Installable(host.before, p)
      ensures Settled(state.status) ==> Strip(host.kernel) == Strip(Installed(host.before, p))
      ensures Settled(state.status) ==> !Idle(host.journal) && Decode(host.journal.value.config) == Some(p)
    {
      hide Durable, AllDurable, Eligible, Installed, Installable, PlanOf, WellFormed, Shaped, Drafted, Strip;
      c := ConfigOf(state.config).value;
      p := PlanOf(c);
      if Settled(state.status) { InstalledIsNotClean(host.before, p); }
    }

    /** A completely installed configuration may be recorded as confirmed. */
    lemma MayConfirm(p: Plan)
      requires host.Safe() && Describes(state, p, host.before) && Eligible(host.before, p)
      requires Installable(host.before, p) && Strip(host.kernel) == Strip(Installed(host.before, p))
      requires !Idle(host.journal) && Decode(host.journal.value.config) == Some(p)
      ensures Durable(Snapshot(host.kernel, Some(state.(status := Confirmed)), host.swapRefused), host.before)
      ensures Decode(state.config) == Some(p)
    {
      hide Decode, Within, Covered, Eligible, Installed, AllDurable, Leaky;
    }
  }
}
