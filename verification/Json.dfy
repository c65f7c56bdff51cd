// The JSON form of a network plan: what the API accepts and what the journal stores.
module Json {
  import opened Wrappers
  import opened Bits
  import opened Config

  /** The member names of a plan; any other name is kept by its text. */
  datatype Field =
    | OuterInterface | InnerInterface | DeviceIpv4 | InnerGatewayIpv4 | InnerPrefix
    | OuterIpv4 | OuterPrefix | OuterGatewayIpv4 | OuterMac | VlanId
    | Unknown(name: string)

  datatype Json =
    | Null
    | Bool(flag: bool)
    | Int(number: int)
    | Real(fraction: real)
    | Text(text: string)
    | Array(items: seq<Json>)
    | Object(members: map<Field, Json>)

  /** The value of a member; a missing member reads as null. */
  function Member(v: Json, f: Field): Json {
    if v.Object? && f in v.members then v.members[f] else Null
  }

  /** An integer of unsigned 32-bit range, also when written with a fraction part of zero. */
  predicate IsUInt(v: Json) {
    || (v.Int? && 0 <= v.number < WORD)
    || (v.Real? && 0.0 <= v.fraction <= 4294967295.0 && v.fraction == v.fraction.Floor as real)
  }

  function AsUInt(v: Json): uint32
    requires IsUInt(v)
  {
    if v.Int? then v.number else v.fraction.Floor
  }

  function ConfigJson(c: NetworkConfig): Json {
    Object(map[
      OuterInterface := Text(c.outerInterface), InnerInterface := Text(c.innerInterface),
      DeviceIpv4 := Text(c.deviceIpv4), InnerGatewayIpv4 := Text(c.innerGatewayIpv4),
      InnerPrefix := Int(c.innerPrefix), OuterIpv4 := Text(c.outerIpv4),
      OuterPrefix := Int(c.outerPrefix), OuterGatewayIpv4 := Text(c.outerGatewayIpv4),
      OuterMac := Text(c.outerMac),
      VlanId := if c.vlanId.Some? then Int(c.vlanId.value) else Null])
  }

  predicate TextMembers(v: Json) {
    && Member(v, OuterInterface).Text? && Member(v, InnerInterface).Text?
    && Member(v, DeviceIpv4).Text? && Member(v, InnerGatewayIpv4).Text?
    && Member(v, OuterIpv4).Text? && Member(v, OuterGatewayIpv4).Text? && Member(v, OuterMac).Text?
  }

  predicate VlanMember(v: Json) {
    && v.Object? && VlanId in v.members
    && (v.members[VlanId].Null? || (IsUInt(v.members[VlanId]) && AsUInt(v.members[VlanId]) <= 4094))
  }

  /** Right members and right types, before the plan itself is judged. */
  ghost predicate Shaped(v: Json) {
    && v.Object?
    && (forall f | f in v.members :: !f.Unknown?)
    && TextMembers(v)
    && IsUInt(Member(v, InnerPrefix)) && IsUInt(Member(v, OuterPrefix))
    && VlanMember(v)
  }

  function Drafted(v: Json): NetworkConfig
    requires TextMembers(v) && IsUInt(Member(v, InnerPrefix)) && IsUInt(Member(v, OuterPrefix)) && VlanMember(v)
  {
    NetworkConfig(
      Member(v, OuterInterface).text, Member(v, InnerInterface).text, Member(v, DeviceIpv4).text,
      Member(v, InnerGatewayIpv4).text, AsUInt(Member(v, InnerPrefix)), Member(v, OuterIpv4).text,
      AsUInt(Member(v, OuterPrefix)), Member(v, OuterGatewayIpv4).text, Member(v, OuterMac).text,
      if v.members[VlanId].Null? then None else Some(AsUInt(v.members[VlanId])))
  }

  /** The plan a value stands for, if it stands for one. */
  ghost function ConfigOf(v: Json): Option<NetworkConfig> {
    if Shaped(v) && SoundPlan(Drafted(v)) then Some(Drafted(v)) else None
  }

  /** Each field of the plan is the value of the member of its own name. */
  ghost predicate Named(v: Json, c: NetworkConfig) {
    && v.Object? && (forall f | f in v.members :: !f.Unknown?)
    && Member(v, OuterInterface) == Text(c.outerInterface) && Member(v, InnerInterface) == Text(c.innerInterface)
    && Member(v, DeviceIpv4) == Text(c.deviceIpv4) && Member(v, InnerGatewayIpv4) == Text(c.innerGatewayIpv4)
    && Member(v, OuterIpv4) == Text(c.outerIpv4) && Member(v, OuterGatewayIpv4) == Text(c.outerGatewayIpv4)
    && Member(v, OuterMac) == Text(c.outerMac)
    && Means(Member(v, InnerPrefix), c.innerPrefix) && Means(Member(v, OuterPrefix), c.outerPrefix)
    && VlanId in v.members
    && match c.vlanId case None => v.members[VlanId] == Null case Some(id) => Means(v.members[VlanId], id)
  }

  /** A number, written as an integer or as a fraction. */
  predicate Means(v: Json, n: int) {
    v == Int(n) || v == Real(n as real)
  }

  method ConfigFromJson(v: Json) returns (r: Result<NetworkConfig>)
    ensures r.Ok? <==> ConfigOf(v).Some?
    ensures r.Ok? ==> ConfigOf(v) == Some(r.value) && Named(v, r.value)
  {
    if !v.Object? { return Err("type"); }
    var known := KnownMembers(v);
    if !known || !TextMembers(v) { return Err("member"); }
    if !IsUInt(Member(v, InnerPrefix)) || !IsUInt(Member(v, OuterPrefix)) { return Err("prefix"); }
    if !VlanMember(v) { return Err("vlan"); }
    var c := Drafted(v);
    var errors := Validate(c);
    if errors != [] { return Err("plan"); }
    return Ok(c);
  }

  method KnownMembers(v: Json) returns (ok: bool)
    requires v.Object?
    ensures ok <==> forall f | f in v.members :: !f.Unknown?
  {
    var names := v.members.Keys;
    while names != {}
      invariant names <= v.members.Keys
      invariant forall f | f in v.members && f !in names :: !f.Unknown?
    {
      var f :| f in names;
      if f.Unknown? { return false; }
      names := names - {f};
    }
    return true;
  }

  /** A plan survives the trip through its JSON form exactly when it is sound; any
      other plan is refused there, never altered. */
  lemma PlanRoundTrip(c: NetworkConfig)
    ensures ConfigOf(ConfigJson(c)) == if SoundPlan(c) then Some(c) else None
  {
    if c.vlanId.Some? && c.vlanId.value > 4094 {
      LongVlan(c);
    } else {
      ShapedJson(c);
      DraftedJson(c);
    }
    hide Shaped, Drafted, SoundPlan, ConfigJson;
  }

  lemma LongVlan(c: NetworkConfig)
    requires c.vlanId.Some? && c.vlanId.value > 4094
    ensures !Shaped(ConfigJson(c)) && !SoundPlan(c)
  {
    assert !VlanMember(ConfigJson(c)) && !WellFormed(c);
  }

  lemma ShapedJson(c: NetworkConfig)
    requires c.vlanId.Some? ==> c.vlanId.value <= 4094
    ensures Shaped(ConfigJson(c))
  {
    hide Drafted;
  }

  lemma DraftedJson(c: NetworkConfig)
    requires Shaped(ConfigJson(c))
    ensures Drafted(ConfigJson(c)) == c
  {
    hide SoundPlan;
  }

  /** An accepted value whose numbers are written as integers is the JSON form of its plan. */
  lemma AcceptedIsEncoding(v: Json)
    requires ConfigOf(v).Some?
    requires forall f | f in v.members :: !v.members[f].Real?
    ensures v == ConfigJson(ConfigOf(v).value)
  {
    ShapedIsEncoding(v);
  }

  lemma ShapedIsEncoding(v: Json)
    requires Shaped(v)
    requires forall f | f in v.members :: !v.members[f].Real?
    ensures v == ConfigJson(Drafted(v))
  {
    var m, e := v.members, ConfigJson(Drafted(v)).members;
    forall f: Field
      ensures (f in m <==> f in e) && (f in m ==> m[f] == e[f])
    {
      EncodedMember(v, f);
    }
    assert m == e;
  }

  lemma EncodedMember(v: Json, f: Field)
    requires Shaped(v) && (f in v.members ==> !v.members[f].Real?)
    ensures var e := ConfigJson(Drafted(v)).members;
            (f in v.members <==> f in e) && (f in v.members ==> v.members[f] == e[f])
  {
    match f
    case OuterInterface => case InnerInterface => case DeviceIpv4 => case InnerGatewayIpv4 => case InnerPrefix =>
    case OuterIpv4 => case OuterPrefix => case OuterGatewayIpv4 => case OuterMac => case VlanId =>
    case Unknown(_) =>
  }

  /** A whole number may also be written as a fraction of zero fraction part. */
  lemma WholeNumbersAreRead(c: NetworkConfig, v: Json)
    requires v == Object(ConfigJson(c).members[InnerPrefix := Real(c.innerPrefix as real)][OuterPrefix := Real(c.outerPrefix as real)])
    ensures ConfigOf(v) == if SoundPlan(c) then Some(c) else None
  {
    PlanRoundTrip(c);
    Whole(c.innerPrefix);
    Whole(c.outerPrefix);
    Prefixes(c);
    hide SoundPlan, ConfigJson, Shaped, Drafted, IsUInt, AsUInt;
    SameReading(v, ConfigJson(c));
  }

  lemma Prefixes(c: NetworkConfig)
    ensures ConfigJson(c).Object? && Member(ConfigJson(c), InnerPrefix) == Int(c.innerPrefix)
    ensures Member(ConfigJson(c), OuterPrefix) == Int(c.outerPrefix)
    ensures InnerPrefix in ConfigJson(c).members && OuterPrefix in ConfigJson(c).members
    ensures IsUInt(Int(c.innerPrefix)) && AsUInt(Int(c.innerPrefix)) == c.innerPrefix
    ensures IsUInt(Int(c.outerPrefix)) && AsUInt(Int(c.outerPrefix)) == c.outerPrefix
  {
  }

  /** Prefixes that read the same make no difference. */
  lemma SameReading(v: Json, e: Json)
    requires v.Object? && e.Object? && v.members.Keys == e.members.Keys
    requires forall f | f in v.members && f != InnerPrefix && f != OuterPrefix :: v.members[f] == e.members[f]
    requires forall f | f == InnerPrefix || f == OuterPrefix ::
      IsUInt(Member(v, f)) && IsUInt(Member(e, f)) && AsUInt(Member(v, f)) == AsUInt(Member(e, f))
    ensures ConfigOf(v) == ConfigOf(e)
  {
    hide SoundPlan, IsUInt, AsUInt;
    forall f | f != InnerPrefix && f != OuterPrefix
      ensures Member(v, f) == Member(e, f) && (f in v.members <==> f in e.members)
    {
      assert f in v.members.Keys <==> f in e.members.Keys;
    }
    assert Shaped(v) <==> Shaped(e);
  }

  lemma Whole(n: uint32)
    ensures IsUInt(Real(n as real)) && AsUInt(Real(n as real)) == n
  {
  }

  /** Any other number than an unsigned whole one is refused as a prefix. */
  lemma FractionsAreRefused(v: Json, f: Field)
    requires f == InnerPrefix || f == OuterPrefix
    requires match Member(v, f) case Real(x) => x < 0.0 || x != x.Floor as real case Int(n) => n < 0 case _ => true
    ensures ConfigOf(v) == None
  {
  }
}
