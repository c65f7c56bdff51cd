// The aggregates of one sampling interval: capped flow and talker maps, protocol counts and
// the recent packets, and what each of them holds in terms of the packets drained.
module Interval {
  import opened Wrappers
  import opened Dissect
  import opened Engine
  import opened Tally
  import opened Store
  import Amounts
  import FlowKey

  const QUEUE: nat := 8192
  const FLOW_CAP: nat := 4096
  const TALKER_CAP: nat := 1024
  const RECENT: nat := 200
  const LISTED: nat := 10

  /** Packets with addresses, counted under their flow's key. */
  function FlowItems(iface: string, packets: seq<Packet>): seq<Item> {
    if packets == [] then []
    else
      var n := |packets| - 1;
      var before := FlowItems(iface, packets[..n]);
      if packets[n].source == "" then before
      else before + [Item(FlowKey.Key(iface, packets[n]), packets[n].wireBytes)]
  }

  /** Packets with addresses, counted under their source. */
  function TalkerItems(packets: seq<Packet>): seq<Item> {
    if packets == [] then []
    else
      var n := |packets| - 1;
      var before := TalkerItems(packets[..n]);
      if packets[n].source == "" then before else before + [Item(packets[n].source, packets[n].wireBytes)]
  }

  function CountProtocol(c: Protocols, p: Protocol): Protocols {
    match p
    case Tcp => c.(tcp := c.tcp + 1)
    case Udp => c.(udp := c.udp + 1)
    case Icmp => c.(icmp := c.icmp + 1)
    case Other => c.(other := c.other + 1)
  }

  const NO_PROTOCOLS: Protocols := Protocols(0, 0, 0, 0)

  function Counted(packets: seq<Packet>, p: Protocol): nat {
    if packets == [] then 0
    else Counted(packets[..|packets| - 1], p) + if packets[|packets| - 1].protocol == p then 1 else 0
  }

  /** The timestamps of a flow's packets, in order. */
  function Times(iface: string, packets: seq<Packet>, key: string): seq<int> {
    if packets == [] then []
    else
      var n := |packets| - 1;
      var before := Times(iface, packets[..n], key);
      if packets[n].source != "" && FlowKey.Key(iface, packets[n]) == key then before + [packets[n].timestamp] else before
  }

  function Last(packets: seq<Packet>, n: nat): seq<Packet> {
    if |packets| <= n then packets else packets[|packets| - n..]
  }

  predicate Spans(row: FlowRow, times: seq<int>) {
    times != [] && row.firstSeen == times[0] && row.lastSeen == times[|times| - 1]
  }

  /** The interval's flow map: exactly the capped aggregate, each row spanning its packets. */
  ghost predicate FlowsAre(flows: map<string, FlowRow>, omitted: nat, iface: string, packets: seq<Packet>) {
    && Capped(FlowItems(iface, packets), FLOW_CAP) == Aggregate(FlowAmounts(flows), omitted)
    && forall k | k in flows :: Spans(flows[k], Times(iface, packets, k))
  }

  ghost predicate TalkersAre(talkers: map<string, nat>, omitted: nat, packets: seq<Packet>) {
    var a := Capped(TalkerItems(packets), TALKER_CAP);
    && a.omitted == omitted && talkers.Keys == a.kept.Keys
    && forall k | k in talkers :: talkers[k] == a.kept[k].bytes
  }

  ghost predicate ProtocolsAre(c: Protocols, packets: seq<Packet>) {
    c == Protocols(Counted(packets, Tcp), Counted(packets, Udp), Counted(packets, Icmp), Counted(packets, Other))
  }

  lemma {:induction false} NoItemNoTime(iface: string, packets: seq<Packet>, key: string)
    requires forall i | 0 <= i < |FlowItems(iface, packets)| :: FlowItems(iface, packets)[i].key != key
    ensures Times(iface, packets, key) == []
  {
    if packets != [] {
      var n := |packets| - 1;
      var items, earlier := FlowItems(iface, packets), FlowItems(iface, packets[..n]);
      assert forall i | 0 <= i < |earlier| :: items[i] == earlier[i];
      NoItemNoTime(iface, packets[..n], key);
      if packets[n].source != "" {
        assert items[|earlier|].key == FlowKey.Key(iface, packets[n]);
      }
    }
  }

  /** A key without a row, while there is room for one, has not been seen in the interval. */
  lemma RoomMeansUnseen(flows: map<string, FlowRow>, omitted: nat, iface: string, packets: seq<Packet>, key: string)
    requires FlowsAre(flows, omitted, iface, packets) && key !in flows && |flows| < FLOW_CAP
    ensures Times(iface, packets, key) == []
  {
    var items := FlowItems(iface, packets);
    CappedIsExact(items, FLOW_CAP);
    KeysFacts(items);
    assert FlowAmounts(flows).Keys == flows.Keys;
    assert key !in Keys(items);
    NoItemNoTime(iface, packets, key);
  }

  function TimeOf(iface: string, p: Packet, key: string): seq<int> {
    if p.source != "" && FlowKey.Key(iface, p) == key then [p.timestamp] else []
  }

  lemma CappedSnoc(items: seq<Item>, x: Item, cap: nat)
    ensures Capped(items + [x], cap) == Admit(Capped(items, cap), x, cap)
  {
    assert (items + [x])[..|items|] == items;
  }

  lemma PacketsSnoc(iface: string, packets: seq<Packet>, p: Packet)
    ensures FlowItems(iface, packets + [p]) ==
            FlowItems(iface, packets) + if p.source == "" then [] else [Item(FlowKey.Key(iface, p), p.wireBytes)]
    ensures TalkerItems(packets + [p]) ==
            TalkerItems(packets) + if p.source == "" then [] else [Item(p.source, p.wireBytes)]
    ensures forall k :: Times(iface, packets + [p], k) == Times(iface, packets, k) + TimeOf(iface, p, k)
    ensures forall q :: Counted(packets + [p], q) == Counted(packets, q) + if p.protocol == q then 1 else 0
  {
    assert (packets + [p])[..|packets|] == packets;
  }

  /** One packet added to the flow map. */
  method AddFlow(flows: map<string, FlowRow>, omitted: nat, iface: string, ghost packets: seq<Packet>, p: Packet)
    returns (flows': map<string, FlowRow>, omitted': nat)
    requires FlowsAre(flows, omitted, iface, packets)
    ensures FlowsAre(flows', omitted', iface, packets + [p])
  {
    flows', omitted' := flows, omitted;
    if p.source != "" {
      var key := FlowKey.Key(iface, p);
      if key in flows || |flows| < FLOW_CAP {
        FlowAdmitted(flows, omitted, iface, packets, p, key);
        flows' := flows[key := AddedRow(flows, key, p)];
      } else {
        FlowOmitted(flows, omitted, iface, packets, p);
        omitted' := omitted + 1;
      }
    } else {
      FlowIgnored(flows, omitted, iface, packets, p);
    }
  }

  function AddedRow(flows: map<string, FlowRow>, key: string, p: Packet): FlowRow {
    var before := if key in flows then flows[key] else FlowRow(p.timestamp, p.timestamp, ZERO);
    FlowRow(before.firstSeen, p.timestamp, before.amount.Plus(Amount(1, p.wireBytes)))
  }

  lemma FlowIgnored(flows: map<string, FlowRow>, omitted: nat, iface: string, packets: seq<Packet>, p: Packet)
    requires FlowsAre(flows, omitted, iface, packets) && p.source == ""
    ensures FlowsAre(flows, omitted, iface, packets + [p])
  {
    hide FlowKey.Key, Times, FlowItems, Capped, Counted, TalkerItems;
    PacketsSnoc(iface, packets, p);
    assert FlowItems(iface, packets + [p]) == FlowItems(iface, packets);
    forall k
      ensures Times(iface, packets + [p], k) == Times(iface, packets, k)
    {
    }
  }

  /** A packet turned away belongs to a flow without a row. */
  lemma FlowOmitted(flows: map<string, FlowRow>, omitted: nat, iface: string, packets: seq<Packet>, p: Packet)
    requires FlowsAre(flows, omitted, iface, packets) && p.source != ""
    requires FlowKey.Key(iface, p) !in flows && |flows| >= FLOW_CAP
    ensures FlowsAre(flows, omitted + 1, iface, packets + [p])
  {
    hide FlowKey.Key, Times, FlowItems, Capped, Counted, TalkerItems;
    PacketsSnoc(iface, packets, p);
    CappedSnoc(FlowItems(iface, packets), Item(FlowKey.Key(iface, p), p.wireBytes), FLOW_CAP);
    AmountsSize(flows);
    forall k | k in flows
      ensures Times(iface, packets + [p], k) == Times(iface, packets, k)
    {
    }
  }

  lemma FlowAdmitted(flows: map<string, FlowRow>, omitted: nat, iface: string, packets: seq<Packet>, p: Packet, key: string)
    requires FlowsAre(flows, omitted, iface, packets) && p.source != ""
    requires key == FlowKey.Key(iface, p) && (key in flows || |flows| < FLOW_CAP)
    ensures FlowsAre(flows[key := AddedRow(flows, key, p)], omitted, iface, packets + [p])
  {
    hide FlowKey.Key, Times, FlowItems, Capped, Counted, TalkerItems, FlowAmounts, AddedRow;
    AdmittedAmounts(flows, omitted, iface, packets, p, key);
    forall k | k in flows || k == key
      ensures Spans(if k == key then AddedRow(flows, key, p) else flows[k], Times(iface, packets + [p], k))
    {
      AdmittedTimes(flows, omitted, iface, packets, p, key, k);
    }
  }

  lemma AdmittedTimes(flows: map<string, FlowRow>, omitted: nat, iface: string, packets: seq<Packet>, p: Packet,
                      key: string, k: string)
    requires FlowsAre(flows, omitted, iface, packets) && p.source != ""
    requires key == FlowKey.Key(iface, p) && (key in flows || |flows| < FLOW_CAP) && (k in flows || k == key)
    ensures Spans(if k == key then AddedRow(flows, key, p) else flows[k], Times(iface, packets + [p], k))
  {
    if key !in flows { RoomMeansUnseen(flows, omitted, iface, packets, key); }
    hide FlowKey.Key, Times, FlowItems, Capped, Counted, TalkerItems, FlowAmounts;
    PacketsSnoc(iface, packets, p);
    assert Times(iface, packets + [p], k) == Times(iface, packets, k) + TimeOf(iface, p, k);
  }

  lemma AdmittedAmounts(flows: map<string, FlowRow>, omitted: nat, iface: string, packets: seq<Packet>, p: Packet, key: string)
    requires Capped(FlowItems(iface, packets), FLOW_CAP) == Aggregate(FlowAmounts(flows), omitted) && p.source != ""
    requires key == FlowKey.Key(iface, p) && (key in flows || |flows| < FLOW_CAP)
    ensures Capped(FlowItems(iface, packets + [p]), FLOW_CAP) ==
            Aggregate(FlowAmounts(flows[key := AddedRow(flows, key, p)]), omitted)
  {
    hide FlowKey.Key, Times, FlowItems, Capped, Counted, TalkerItems;
    PacketsSnoc(iface, packets, p);
    CappedSnoc(FlowItems(iface, packets), Item(key, p.wireBytes), FLOW_CAP);
    AmountsSize(flows);
    var row := AddedRow(flows, key, p);
    assert FlowAmounts(flows[key := row]) == FlowAmounts(flows)[key := row.amount];
  }

  lemma AmountsSize(flows: map<string, FlowRow>)
    ensures |FlowAmounts(flows)| == |flows|
  {
    assert FlowAmounts(flows).Keys == flows.Keys;
    assert |FlowAmounts(flows)| == |FlowAmounts(flows).Keys| && |flows| == |flows.Keys|;
  }

  method AddTalker(talkers: map<string, nat>, omitted: nat, ghost packets: seq<Packet>, p: Packet)
    returns (talkers': map<string, nat>, omitted': nat)
    requires TalkersAre(talkers, omitted, packets)
    ensures TalkersAre(talkers', omitted', packets + [p])
  {
    talkers', omitted' := talkers, omitted;
    PacketsSnoc("", packets, p);
    if p.source != "" {
      CappedSnoc(TalkerItems(packets), Item(p.source, p.wireBytes), TALKER_CAP);
      SameSize(talkers, Capped(TalkerItems(packets), TALKER_CAP).kept);
      if p.source in talkers || |talkers| < TALKER_CAP {
        talkers' := talkers[p.source := (if p.source in talkers then talkers[p.source] else 0) + p.wireBytes];
      } else {
        omitted' := omitted + 1;
      }
    }
  }

  lemma SameSize(m: map<string, nat>, n: map<string, Amount>)
    requires m.Keys == n.Keys
    ensures |m| == |n|
  {
    assert |m| == |m.Keys| && |n| == |n.Keys|;
  }

  lemma ProtocolCounted(c: Protocols, packets: seq<Packet>, p: Packet)
    requires ProtocolsAre(c, packets)
    ensures ProtocolsAre(CountProtocol(c, p.protocol), packets + [p])
  {
    assert (packets + [p])[..|packets|] == packets;
  }

  /** As many as there are up to the limit, the last ones, in order. */
  lemma LastAre(packets: seq<Packet>, n: nat)
    ensures var last := Last(packets, n);
            && |last| == Min(n, |packets|)
            && forall i | 0 <= i < |last| :: last[i] == packets[|packets| - |last| + i]
  {
  }

  /** Trimming after every drain leaves the last packets of the whole session. */
  lemma LastOfLast(session: seq<Packet>, packets: seq<Packet>, n: nat)
    ensures Last(Last(session, n) + packets, n) == Last(session + packets, n)
  {
  }

  lemma {:induction false} FlowItemsConcat(iface: string, xs: seq<Packet>, ys: seq<Packet>)
    ensures FlowItems(iface, xs + ys) == FlowItems(iface, xs) + FlowItems(iface, ys)
  {
    if ys == [] {
      assert xs + ys == xs;
    } else {
      var earlier, y := ys[..|ys| - 1], ys[|ys| - 1];
      assert xs + ys == (xs + earlier) + [y] && ys == earlier + [y];
      hide FlowItems, TalkerItems, Times, Counted, FlowKey.Key;
      FlowItemsConcat(iface, xs, earlier);
      PacketsSnoc(iface, xs + earlier, y);
      PacketsSnoc(iface, earlier, y);
    }
  }

  // ---- What the caps keep ----

  /** The kept part of an interval is exact, and everything else with addresses is counted as omitted. */
  lemma IntervalIsExact(flows: map<string, FlowRow>, omitted: nat, iface: string, packets: seq<Packet>)
    requires FlowsAre(flows, omitted, iface, packets)
    ensures var items := FlowItems(iface, packets);
            && (forall k :: k in flows <==> k in KeptKeys(items, 4096))
            && (forall k | k in flows :: flows[k].amount == Total(items, k))
            && (forall k | k in KeptKeys(items, 4096) :: k in FlowAmounts(flows))
            && SumOver(KeptKeys(items, 4096), FlowAmounts(flows)) + omitted == Addressed(packets)
  {
    hide Total, FlowItems, Capped, KeptKeys, SumOver, Times;
    CappedIsExact(FlowItems(iface, packets), FLOW_CAP);
    ItemsAreAddressed(iface, packets);
    forall k
      ensures k in flows <==> k in FlowAmounts(flows)
      ensures k in flows ==> flows[k].amount == FlowAmounts(flows)[k]
    {
    }
  }

  /** The bytes of a flow's packets. */
  function BytesUnder(iface: string, packets: seq<Packet>, key: string): nat {
    if packets == [] then 0
    else
      var n := |packets| - 1;
      BytesUnder(iface, packets[..n], key) +
      if packets[n].source != "" && FlowKey.Key(iface, packets[n]) == key then packets[n].wireBytes else 0
  }

  /** The direct sum of a key counts each of the flow's packets once, with its bytes on the wire. */
  lemma {:induction false} TotalIsDirect(iface: string, packets: seq<Packet>, key: string)
    ensures Total(FlowItems(iface, packets), key) == Amount(|Times(iface, packets, key)|, BytesUnder(iface, packets, key))
  {
    if packets != [] {
      hide FlowKey.Key;
      var n := |packets| - 1;
      TotalIsDirect(iface, packets[..n], key);
      if packets[n].source != "" {
        TotalSnoc(FlowItems(iface, packets[..n]), Item(FlowKey.Key(iface, packets[n]), packets[n].wireBytes), key);
      }
    }
  }

  function Addressed(packets: seq<Packet>): nat {
    if packets == [] then 0
    else Addressed(packets[..|packets| - 1]) + if packets[|packets| - 1].source != "" then 1 else 0
  }

  lemma {:induction false} ItemsAreAddressed(iface: string, packets: seq<Packet>)
    ensures |FlowItems(iface, packets)| == |TalkerItems(packets)| == Addressed(packets)
  {
    if packets != [] {
      ItemsAreAddressed(iface, packets[..|packets| - 1]);
    }
  }

  /** The same of the talkers: each kept source with all its bytes. */
  lemma TalkersAreExact(talkers: map<string, nat>, omitted: nat, packets: seq<Packet>)
    requires TalkersAre(talkers, omitted, packets)
    ensures var items := TalkerItems(packets);
            && (forall k :: k in talkers <==> k in KeptKeys(items, 1024))
            && (forall k | k in talkers :: talkers[k] == Total(items, k).bytes)
            && (omitted == 0 ==> forall k :: Total(items, k).bytes == if k in talkers then talkers[k] else 0)
  {
    var items := TalkerItems(packets);
    CappedIsExact(items, TALKER_CAP);
    if omitted == 0 {
      forall k | k !in talkers
        ensures Total(items, k) == ZERO
      {
        NoneOmitted(items, TALKER_CAP, k);
      }
    }
  }

  // ---- Top talkers ----

  /** The talkers shown: up to ten, largest first, none outweighed by one that is not shown. */
  ghost predicate TopOf(top: seq<string>, talkers: map<string, nat>) {
    && |top| == Min(10, |talkers|)
    && (forall i | 0 <= i < |top| :: top[i] in talkers)
    && Distinct(top)
    && (forall i, j | 0 <= i < j < |top| :: talkers[top[i]] >= talkers[top[j]])
    && (forall k, i | k in talkers && k !in top && 0 <= i < |top| :: talkers[top[i]] >= talkers[k])
  }

  method TopTalkers(talkers: map<string, nat>) returns (top: seq<string>)
    ensures TopOf(top, talkers)
  {
    top := [];
    var rest := talkers.Keys;
    while rest != {} && |top| < LISTED
      invariant rest <= talkers.Keys && |top| + |rest| == |talkers| && |top| <= LISTED
      invariant forall k | k in talkers :: k in rest <==> k !in top
      invariant forall i | 0 <= i < |top| :: top[i] in talkers
      invariant Distinct(top)
      invariant forall i, j | 0 <= i < j < |top| :: talkers[top[i]] >= talkers[top[j]]
      invariant forall k, i | k in rest && 0 <= i < |top| :: talkers[top[i]] >= talkers[k]
    {
      var largest := Largest(talkers, rest);
      top := top + [largest];
      rest := rest - {largest};
    }
    assert |talkers| == |talkers.Keys|;
  }

  method Largest(talkers: map<string, nat>, among: set<string>) returns (largest: string)
    requires among <= talkers.Keys && among != {}
    ensures largest in among && forall k | k in among :: talkers[largest] >= talkers[k]
  {
    largest :| largest in among;
    var rest := among - {largest};
    while rest != {}
      invariant rest <= among && largest in among
      invariant forall k | k in among && k !in rest :: talkers[largest] >= talkers[k]
    {
      var k :| k in rest;
      if talkers[k] > talkers[largest] { largest := k; }
      rest := rest - {k};
    }
  }

  // ---- The batch of an interval ----

  /** Stored rows with an interval's rows added: first seen stays, last seen is the latest write. */
  function Merge(stored: map<string, FlowRow>, flows: map<string, FlowRow>): map<string, FlowRow> {
    map k | k in stored.Keys + flows.Keys :: MergedRow(stored, flows, k)
  }

  function MergedRow(stored: map<string, FlowRow>, flows: map<string, FlowRow>, k: string): FlowRow
    requires k in stored || k in flows
  {
    if k !in flows then stored[k]
    else if k !in stored then flows[k]
    else FlowRow(stored[k].firstSeen, flows[k].lastSeen, stored[k].amount.Plus(flows[k].amount))
  }

  lemma MergeAdds(stored: map<string, FlowRow>, flows: map<string, FlowRow>, key: string)
    ensures AmountOf(Merge(stored, flows), key) == AmountOf(stored, key).Plus(AmountOf(flows, key))
  {
    hide Merge, MergedRow, Amount.Plus;
    MergedAt(stored, flows, key);
    MergedRowAdds(stored, flows, key);
  }

  lemma MergedRowAdds(stored: map<string, FlowRow>, flows: map<string, FlowRow>, key: string)
    ensures (if key in stored || key in flows then MergedRow(stored, flows, key).amount else ZERO) ==
            AmountOf(stored, key).Plus(AmountOf(flows, key))
  {
    hide Amount.Plus;
    PlusZero(AmountOf(stored, key));
    PlusZero(AmountOf(flows, key));
  }

  lemma MergedAt(stored: map<string, FlowRow>, flows: map<string, FlowRow>, key: string)
    ensures key in Merge(stored, flows) <==> key in stored || key in flows
    ensures key in stored || key in flows ==> Merge(stored, flows)[key] == MergedRow(stored, flows, key)
  {
  }

  /** When a row was last seen, once an interval's rows are stored. */
  function LatestOf(was: map<string, FlowRow>, flows: map<string, FlowRow>, k: string): int
    requires k in was || k in flows
  {
    if k in flows then flows[k].lastSeen else was[k].lastSeen
  }

  /** The stored rows after an interval's, field by field: a first-seen time once stored stays, the last
      one is the interval's, packets and bytes add up; and only what is older than the cut-off, or not
      among the 10000 most recently seen, is missing. */
  ghost predicate RowsTaken(was: map<string, FlowRow>, flows: map<string, FlowRow>, rows: map<string, FlowRow>, cutoff: int) {
    && (forall k | k in rows :: (k in was || k in flows) && rows[k].lastSeen == LatestOf(was, flows, k) >= cutoff)
    && (forall k | k in rows && k in was :: rows[k].firstSeen == was[k].firstSeen)
    && (forall k | k in rows && k !in was :: k in flows && rows[k] == flows[k])
    && (forall k | k in rows && k in was && k !in flows :: rows[k] == was[k])
    && (forall k | k in rows && k in was && k in flows ::
          && rows[k].amount.packets == was[k].amount.packets + flows[k].amount.packets
          && rows[k].amount.bytes == was[k].amount.bytes + flows[k].amount.bytes)
    && |rows| <= 10000
    && (forall k | (k in was || k in flows) && k !in rows && LatestOf(was, flows, k) >= cutoff ::
          |rows| == 10000 && forall j | j in rows :: LatestOf(was, flows, k) <= rows[j].lastSeen)
  }

  lemma MergeTaken(was: map<string, FlowRow>, flows: map<string, FlowRow>, rows: map<string, FlowRow>, cutoff: int)
    requires Retained(Merge(was, flows), rows, cutoff)
    ensures RowsTaken(was, flows, rows, cutoff)
  {
    hide Merge;
    forall k
      ensures k in Merge(was, flows) <==> k in was || k in flows
      ensures k in was || k in flows ==> Merge(was, flows)[k] == MergedRow(was, flows, k)
    {
      MergedAt(was, flows, k);
    }
  }

  /** The rows of a flow map as a batch, in no particular order: upserting it merges the map. */
  method MakeBatch(flows: map<string, FlowRow>, ghost stored: map<string, FlowRow>) returns (batch: seq<FlowRecord>)
    ensures |batch| == |flows|
    ensures FlowUpserts(stored, batch) == Merge(stored, flows)
  {
    hide Merge, FlowUpserts;
    batch := [];
    var rest := flows.Keys;
    NothingMerged(stored, flows);
    while rest != {}
      invariant rest <= flows.Keys && |batch| + |rest| == |flows|
      invariant FlowUpserts(stored, batch) == Merge(stored, flows - rest)
    {
      var k :| k in rest;
      var r := FlowRecord(k, flows[k].firstSeen, flows[k].lastSeen, flows[k].amount);
      MergeStep(stored, flows, rest, batch, r);
      batch := batch + [r];
      rest := rest - {k};
    }
    assert flows - {} == flows;
  }

  lemma NothingMerged(stored: map<string, FlowRow>, flows: map<string, FlowRow>)
    ensures FlowUpserts(stored, []) == stored == Merge(stored, flows - flows.Keys)
  {
    assert flows - flows.Keys == map[];
  }

  lemma MergeStep(stored: map<string, FlowRow>, flows: map<string, FlowRow>, rest: set<string>,
                  batch: seq<FlowRecord>, r: FlowRecord)
    requires r.key in rest && r.key in flows && FlowUpserts(stored, batch) == Merge(stored, flows - rest)
    requires FlowRow(r.firstSeen, r.timestamp, r.amount) == flows[r.key]
    ensures FlowUpserts(stored, batch + [r]) == Merge(stored, flows - (rest - {r.key}))
  {
    assert (batch + [r])[..|batch|] == batch;
    assert FlowUpserts(stored, batch + [r]) == FlowUpsert(Merge(stored, flows - rest), r);
  }
}
