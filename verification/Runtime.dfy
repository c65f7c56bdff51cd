// The control thread's telemetry: draining the capture queue into interval aggregates,
// flushing those into the store, and switching the captured interface.
module Runtime {
  import opened Wrappers
  import opened Dissect
  import opened Engine
  import opened Tally
  import opened Store
  import opened Interval
  import opened Retention
  import Amounts
  import FlowKey

  /** What a flush leaves for the dashboard. */
  datatype Metrics = Metrics(
    timestamp: int, protocols: Protocols, topTalkers: seq<string>,
    talkersOmitted: nat, flowsOmitted: nat, breakdownComplete: bool)

  /** Where switching the capture may stop. */
  datatype Obstacle = Clear | SourceFails | StartFails | PutFails

  /** One to fifteen letters, digits, underscores, hyphens and dots. */
  predicate CaptureName(name: string) {
    && 1 <= |name| <= 15
    && forall c | c in name :: 'a' <= c <= 'z' || 'A' <= c <= 'Z' || '0' <= c <= '9' || c == '_' || c == '-' || c == '.'
  }

  /** What the capture endpoint looks at: the length, and every character. */
  method AcceptsName(name: string) returns (ok: bool)
    ensures ok <==> CaptureName(name)
  {
    if name == "" || |name| > 15 { return false; }
    for i := 0 to |name|
      invariant forall j | 0 <= j < i ::
        var c := name[j];
        'a' <= c <= 'z' || 'A' <= c <= 'Z' || '0' <= c <= '9' || c == '_' || c == '-' || c == '.'
    {
      var c := name[i];
      if !('a' <= c <= 'z' || 'A' <= c <= 'Z' || '0' <= c <= '9' || c == '_' || c == '.' || c == '-') {
        assert c in name;
        return false;
      }
    }
    return true;
  }

  /** Flows of a capture therefore have keys that tell them apart. */
  lemma FlowsOfACapture(name: string, p: Packet, q: Packet)
    requires CaptureName(name) && FlowKey.Key(name, p) == FlowKey.Key(name, q)
    requires FlowKey.Plain(p.source) && FlowKey.Plain(p.destination)
    requires FlowKey.Plain(q.source) && FlowKey.Plain(q.destination)
    ensures p.source == q.source && p.destination == q.destination && p.protocol == q.protocol
    ensures p.sourcePort == q.sourcePort && p.destinationPort == q.destinationPort
  {
    FlowKey.KeyInjective(name, p, name, q);
  }

  // ---- Steps of the two ledgers ----

  ghost function SampleSum(samples: map<int, SampleRow>): Amount {
    Amounts.Sum(SampleAmounts(samples))
  }

  /** What the clean-up of a stored sample takes out. */
  ghost function ExpiredSum(samples: map<int, SampleRow>, ts: int): Amount {
    Amounts.Sum(Amounts.Taken(SampleAmounts(samples), Expired(samples, ts)))
  }

  lemma SampleStored(samples: map<int, SampleRow>, ts: int, amount: Amount, protocols: Protocols)
    ensures SampleSum(SampleUpsert(samples, ts, amount, protocols)) == SampleSum(samples).Plus(amount)
    ensures var all := SampleUpsert(samples, ts, amount, protocols);
            SampleSum(samples).Plus(amount) == SampleSum(all - Expired(all, ts)).Plus(ExpiredSum(all, ts))
  {
    hide Amounts.Sum, SampleAmounts;
    SampleAdds(samples, ts, amount, protocols);
    var all := SampleUpsert(samples, ts, amount, protocols);
    CleanupRemoves(all, Expired(all, ts));
  }

  /** What the counters have grown by. */
  function Since(before: Amount, after: Amount): Amount {
    Amount(if after.packets >= before.packets then after.packets - before.packets else 0,
           if after.bytes >= before.bytes then after.bytes - before.bytes else 0)
  }

  /** The aggregates a flush stores are exact for the packets of its interval. */
  ghost predicate ExactFor(flows: map<string, FlowRow>, omitted: nat, counts: Protocols, iface: string, packets: seq<Packet>) {
    FlowsAre(flows, omitted, iface, packets) && ProtocolsAre(counts, packets)
  }

  /** The details stored for a second count exactly these packets, each under its own protocol. */
  ghost predicate Detailed(samples: map<int, SampleRow>, now: Moment, packets: seq<Packet>) {
    now.sampleFault != InsertFails ==>
      && now.timestamp in samples && samples[now.timestamp].protocols.tcp == Counted(packets, Tcp)
      && samples[now.timestamp].protocols.udp == Counted(packets, Udp)
      && samples[now.timestamp].protocols.icmp == Counted(packets, Icmp)
      && samples[now.timestamp].protocols.other == Counted(packets, Other)
  }

  lemma TablesStored(was: Tables, tables: Tables, delta: Amount, counts: Protocols, flows: map<string, FlowRow>, now: Moment)
    requires now.sampleFault == InsertFails ==> tables.samples == was.samples
    requires now.sampleFault != InsertFails ==>
      SampleTaken(was.samples, tables.samples, now.timestamp, delta, counts, now.sampleFault == NoFault)
    requires var all := SampleUpsert(was.samples, now.timestamp, delta, counts);
             && (now.sampleFault == CleanupFails ==> tables.samples == all)
             && (now.sampleFault == NoFault ==> tables.samples == all - Expired(all, now.timestamp))
    requires if Commits(flows, now) then Retained(Merge(was.rows, flows), tables.rows, now.cutoff)
             else tables.rows == was.rows
    ensures Stored(was, tables, delta, counts, flows, now)
  {
    hide Retained, Merge, SampleUpsert, Expired, SampleTaken, RowsTaken;
    if Commits(flows, now) { MergeTaken(was.rows, flows, tables.rows, now.cutoff); }
  }

  lemma StoredDetails(was: Tables, tables: Tables, delta: Amount, counts: Protocols, flows: map<string, FlowRow>, now: Moment,
                      packets: seq<Packet>)
    requires Stored(was, tables, delta, counts, flows, now) && ProtocolsAre(counts, packets)
    ensures Detailed(tables.samples, now, packets)
  {
    hide RowsTaken, SampleUpsert, Retained, Merge, Expired, Counted;
  }

  /** The ways a delta can go: stored, stored with something expired, or not stored. */
  lemma SampleBalance(total: Amount, sum: Amount, expired: Amount, unstored: Amount, delta: Amount,
                      upserted: Amount, kept: Amount, gone: Amount)
    requires total == sum.Plus(expired).Plus(unstored)
    requires upserted == sum.Plus(delta) && sum.Plus(delta) == kept.Plus(gone)
    ensures total.Plus(delta) == upserted.Plus(expired).Plus(unstored)
    ensures total.Plus(delta) == kept.Plus(expired.Plus(gone)).Plus(unstored)
    ensures total.Plus(delta) == sum.Plus(expired).Plus(unstored.Plus(delta))
  {
  }

  lemma RetirePrevious(before: Amount, retired: Amount, previous: Amount)
    ensures before.Plus(retired).Plus(previous) == before.Plus(retired.Plus(previous)).Plus(Amount(0, 0))
  {
  }

  /** What a clean-up took of one key. */
  function Evicted(all: map<string, FlowRow>, flows: map<string, FlowRow>, key: string): Amount {
    if key in flows then ZERO else AmountOf(all, key)
  }

  lemma RowsKept(all: map<string, FlowRow>, flows: map<string, FlowRow>, cutoff: int, key: string)
    requires Retained(all, flows, cutoff)
    ensures AmountOf(all, key) == AmountOf(flows, key).Plus(Evicted(all, flows, key))
  {
    hide Retained, Amount.Plus;
    KeptAsItWas(all, flows, cutoff, key);
    PlusZero(AmountOf(all, key));
  }

  lemma NoneEvicted(all: map<string, FlowRow>, flows: map<string, FlowRow>, key: string)
    requires Gone(all, flows) == 0
    ensures Evicted(all, flows, key) == ZERO
  {
    assert key in all && key !in flows ==> key in all.Keys - flows.Keys;
  }

  lemma KeptAsItWas(all: map<string, FlowRow>, flows: map<string, FlowRow>, cutoff: int, key: string)
    requires Retained(all, flows, cutoff)
    ensures key in flows ==> key in all && flows[key] == all[key]
  {
  }

  /** What the cap kept out of one key in an interval: nothing when the key has a row. */
  function Refused(flows: map<string, FlowRow>, items: seq<Item>, key: string): Amount {
    if key in flows then ZERO else Total(items, key)
  }

  lemma RowIsTotal(flows: map<string, FlowRow>, omitted: nat, iface: string, packets: seq<Packet>, key: string)
    requires FlowsAre(flows, omitted, iface, packets)
    ensures var items := FlowItems(iface, packets);
            Total(items, key) == AmountOf(flows, key).Plus(Refused(flows, items, key))
  {
    hide Total, FlowItems, Capped, KeptKeys, SumOver, Times;
    CappedIsExact(FlowItems(iface, packets), FLOW_CAP);
    if key in flows { assert key in FlowAmounts(flows); }
  }

  lemma NothingRefused(flows: map<string, FlowRow>, omitted: nat, iface: string, packets: seq<Packet>, key: string)
    requires FlowsAre(flows, omitted, iface, packets) && omitted == 0
    ensures Refused(flows, FlowItems(iface, packets), key) == ZERO
  {
    hide Total, FlowItems, Capped, Times;
    var items := FlowItems(iface, packets);
    if key !in flows {
      assert key !in FlowAmounts(flows);
      NoneOmitted(items, FLOW_CAP, key);
    }
  }

  lemma NothingExpired(samples: map<int, SampleRow>, ts: int)
    requires |Expired(samples, ts)| == 0
    ensures ExpiredSum(samples, ts) == ZERO
  {
    var taken := Amounts.Taken(SampleAmounts(samples), Expired(samples, ts));
    assert Expired(samples, ts) == {};
    assert taken.Keys == {};
    Amounts.SumEmpty(taken);
  }

  lemma EmptyInterval(iface: string)
    ensures FlowsAre(map[], 0, iface, []) && TalkersAre(map[], 0, []) && ProtocolsAre(NO_PROTOCOLS, [])
    ensures Last([], RECENT) == []
  {
    assert FlowAmounts(map[]) == map[];
  }

  /** An interval without packets says nothing about the interface. */
  lemma AnyInterface(flows: map<string, FlowRow>, omitted: nat, iface: string, other: string)
    requires FlowsAre(flows, omitted, iface, [])
    ensures FlowsAre(flows, omitted, other, [])
  {
    assert FlowItems(iface, []) == FlowItems(other, []);
    assert forall k :: Times(iface, [], k) == Times(other, [], k);
  }

  method Trim(packets: seq<Packet>) returns (last: seq<Packet>)
    ensures last == Last(packets, RECENT)
  {
    last := if |packets| > RECENT then packets[|packets| - RECENT..] else packets;
  }

  /** Where a committed batch leaves the amounts of one key. */
  lemma Committed(stored: map<string, FlowRow>, flows: map<string, FlowRow>, stored': map<string, FlowRow>, cutoff: int,
                  key: string, capped: Amount, lost: Amount, evicted: Amount)
    requires Retained(Merge(stored, flows), stored', cutoff)
    ensures var all := Merge(stored, flows);
            AmountOf(stored, key).Plus(capped).Plus(lost).Plus(evicted).Plus(AmountOf(flows, key)) ==
            AmountOf(stored', key).Plus(capped).Plus(lost).Plus(evicted.Plus(Evicted(all, stored', key)))
    ensures Gone(Merge(stored, flows), stored') == 0 ==>
            evicted.Plus(Evicted(Merge(stored, flows), stored', key)) == evicted
  {
    hide AmountOf, Retained, Evicted, Merge, Gone, Amount.Plus;
    var all := Merge(stored, flows);
    MergeAdds(stored, flows, key);
    RowsKept(all, stored', cutoff, key);
    if Gone(all, stored') == 0 { NoneEvicted(all, stored', key); }
    PlusZero(evicted);
    Balance(AmountOf(stored, key), AmountOf(flows, key), AmountOf(stored', key), Evicted(all, stored', key), capped, lost, evicted);
  }

  lemma Balance(stored: Amount, row: Amount, stored': Amount, gone: Amount, capped: Amount, lost: Amount, evicted: Amount)
    requires stored.Plus(row) == stored'.Plus(gone)
    ensures stored.Plus(capped).Plus(lost).Plus(evicted).Plus(row) ==
            stored'.Plus(capped).Plus(lost).Plus(evicted.Plus(gone))
  {
  }

  lemma RolledBack(stored: Amount, row: Amount, capped: Amount, lost: Amount, evicted: Amount)
    ensures stored.Plus(capped).Plus(lost).Plus(evicted).Plus(row) == stored.Plus(capped).Plus(lost.Plus(row)).Plus(evicted)
  {
  }

  lemma Closed(before: Amount, total: Amount, row: Amount, capped: Amount, total': Amount, capped': Amount,
               stored: Amount, lost: Amount, evicted: Amount)
    requires before.Plus(total).Plus(row) == stored.Plus(capped).Plus(lost).Plus(evicted)
    requires total.Plus(row).Plus(capped') == total'.Plus(capped)
    ensures before.Plus(total') == stored.Plus(capped').Plus(lost).Plus(evicted)
  {
  }

  lemma HandedOver(total: Amount, row: Amount, refused: Amount, capped: Amount)
    ensures total.Plus(row).Plus(capped.Plus(refused)) == total.Plus(row.Plus(refused)).Plus(capped)
  {
  }

  lemma NothingPending(iface: string, items: seq<Item>)
    ensures items + FlowItems(iface, []) == items
  {
  }

  ghost predicate OnlyAt(was: seq<Moment>, flushes: seq<Moment>, now: Option<Moment>) {
    forall m | m in flushes :: m in was || now == Some(m)
  }

  ghost predicate OnlyFrom(was: seq<Packet>, held: seq<Packet>, packets: seq<Packet>) {
    forall p | p in held :: p in was || p in packets
  }

  /** Draining moves packets on and adds none. */
  lemma MovedOn(closed: seq<Packet>, interval: seq<Packet>, queue: seq<Packet>, queue': seq<Packet>, between: seq<Packet>)
    requires forall p | p in queue' :: p in between
    ensures OnlyFrom(closed + interval + queue, closed + (interval + queue) + queue', between)
    ensures OnlyFrom(closed + interval + queue, (closed + (interval + queue)) + [] + queue', between)
  {
  }

  lemma OneMoment(was: seq<Moment>, now: Moment)
    ensures OnlyAt(was, was, Some(now)) && OnlyAt(was, was, None) && OnlyAt(was, was + [now], Some(now))
  {
  }

  class ApplianceRuntime {
    const store: Store
    var engine: CaptureEngine?
    var captureInterface: string
    var setting: string
    var flows: map<string, FlowRow>
    var talkers: map<string, nat>
    var protocols: Protocols
    var recent: seq<Packet>
    var flowsOmitted: nat
    var talkersOmitted: nat
    var previousPackets: nat
    var previousBytes: nat
    var metrics: Option<Metrics>

    ghost const watched: string       // any key: nothing the program computes depends on it
    ghost var interval: seq<Packet>   // drained since the last flush
    ghost var session: seq<Packet>    // drained since the capture was started
    ghost var flushed: seq<Item>      // counted in closed intervals, over all captures

    // Where the packets under the watched key went.
    ghost const rowBefore: Amount     // stored already when the run began
    ghost var capped: Amount          // turned away by the cap of an interval
    ghost var lost: Amount            // in a batch that was never committed
    ghost var evicted: Amount         // removed by retention

    // Where the counted packets went.
    ghost const samplesBefore: Amount
    ghost var retired: Amount         // counters of earlier captures at their last sample
    ghost var expired: Amount         // in samples removed by retention
    ghost var unstored: Amount        // in deltas whose insertion failed

    ghost const origin: Tables        // the tables when the run began
    ghost var trace: Trace            // what the flushes since have done to them

    /** Nothing is capped, evicted or expired unless something was omitted or removed, and nothing
        is lost while the store is calm. */
    twostate predicate Justified(calm: bool)
      reads `trace, `capped, `evicted, `expired, `lost, `unstored
    {
      && old(trace).omissions <= trace.omissions && old(trace).removedRows <= trace.removedRows
      && old(trace).removedSamples <= trace.removedSamples
      && (trace.omissions == old(trace).omissions ==> capped == old(capped))
      && (trace.removedRows == old(trace).removedRows ==> evicted == old(evicted))
      && (trace.removedSamples == old(trace).removedSamples ==> expired == old(expired))
      && (calm ==> lost == old(lost) && unstored == old(unstored))
    }

    ghost function Stores(): Tables
      reads store
    {
      Tables(store.samples, store.flows)
    }

    ghost predicate Recorded()
      reads `flushed, `trace, store
    {
      Traced(trace, KeySet(flushed), Stores(), origin)
    }

    ghost predicate Aggregates()
      reads `flows, `flowsOmitted, `talkers, `talkersOmitted, `protocols, `recent, `captureInterface, `interval, `session
    {
      && FlowsAre(flows, flowsOmitted, captureInterface, interval)
      && TalkersAre(talkers, talkersOmitted, interval)
      && ProtocolsAre(protocols, interval)
      && recent == Last(session, 200)
    }

    /** Per key, what was counted in closed intervals is stored, or went one of three ways. */
    ghost predicate FlowLedger()
      reads `flushed, `capped, `lost, `evicted, store`flows
    {
      rowBefore.Plus(Total(flushed, watched)) == AmountOf(store.flows, watched).Plus(capped).Plus(lost).Plus(evicted)
    }

    /** Deltas telescope: stored, expired and lost samples add up to the counters at the last samples. */
    ghost predicate SampleLedger()
      reads `retired, `previousPackets, `previousBytes, `expired, `unstored, store`samples
    {
      samplesBefore.Plus(retired).Plus(Amount(previousPackets, previousBytes)) ==
      SampleSum(store.samples).Plus(expired).Plus(unstored)
    }

    ghost predicate Capturing()
      reads `engine, `interval, `session, `previousPackets, `previousBytes, engine
    {
      && (engine == null ==> interval == [])
      && (engine != null ==> engine.Valid() && engine.capacity == QUEUE && engine.drained == session)
      && (engine != null ==> previousPackets <= engine.packets && previousBytes <= engine.wireBytes)
    }

    ghost predicate Valid()
      reads this, engine, store
    {
      Aggregates() && FlowLedger() && SampleLedger() && Capturing() && Recorded()
    }

    constructor (store: Store, ghost watched: string)
      ensures Valid() && this.store == store && this.watched == watched && engine == null
      ensures flushed == [] && capped == lost == evicted == ZERO && retired == expired == unstored == ZERO
      ensures rowBefore == AmountOf(store.flows, watched) && samplesBefore == SampleSum(store.samples)
      ensures origin == Tables(store.samples, store.flows) && trace == Trace([], [], 0, 0, 0) && interval == []
    {
      hide FlowsAre, TalkersAre, ProtocolsAre, AmountOf, SampleSum;
      EmptyInterval("");
      this.store, this.watched := store, watched;
      engine, captureInterface, setting := null, "", "";
      flows, talkers, protocols, recent := map[], map[], NO_PROTOCOLS, [];
      flowsOmitted, talkersOmitted, previousPackets, previousBytes, metrics := 0, 0, 0, 0, None;
      interval, session, flushed := [], [], [];
      rowBefore, capped, lost, evicted := AmountOf(store.flows, watched), ZERO, ZERO, ZERO;
      samplesBefore, retired, expired, unstored := SampleSum(store.samples), ZERO, ZERO, ZERO;
      origin, trace := Tables(store.samples, store.flows), Trace([], [], 0, 0, 0);
    }

    /** What the counters have grown by since the last sample. */
    twostate function Growth(): Amount
      reads `engine, engine
    {
      if engine == null then ZERO else Since(old(Previous()), Amount(engine.packets, engine.wireBytes))
    }

    function Previous(): Amount
      reads `previousPackets, `previousBytes
    {
      Amount(previousPackets, previousBytes)
    }

    /** Everything drained so far, as items, over all captures. */
    ghost function Stream(): seq<Item>
      reads `flushed, `captureInterface, `interval
    {
      flushed + FlowItems(captureInterface, interval)
    }

    /** Adds drained packets to the interval. */
    method Absorb(packets: seq<Packet>)
      requires Aggregates()
      modifies `flows, `flowsOmitted, `talkers, `talkersOmitted, `protocols, `recent, `interval, `session
      ensures Aggregates() && interval == old(interval) + packets && session == old(session) + packets
    {
      hide FlowsAre, TalkersAre, ProtocolsAre, CountProtocol, Last;
      for i := 0 to |packets|
        invariant FlowsAre(flows, flowsOmitted, captureInterface, interval)
        invariant TalkersAre(talkers, talkersOmitted, interval)
        invariant ProtocolsAre(protocols, interval) && session == old(session)
        invariant interval == old(interval) + packets[..i] && recent == old(recent) + packets[..i]
      {
        var packet := packets[i];
        flows, flowsOmitted := AddFlow(flows, flowsOmitted, captureInterface, interval, packet);
        ProtocolCounted(protocols, interval, packet);
        protocols := CountProtocol(protocols, packet.protocol);
        talkers, talkersOmitted := AddTalker(talkers, talkersOmitted, interval, packet);
        recent := recent + [packet];
        interval := interval + [packet];
        assert packets[..i + 1] == packets[..i] + [packet];
      }
      assert packets[..|packets|] == packets;
      LastOfLast(session, packets, RECENT);
      session := session + packets;
      recent := Trim(recent);
    }

    /** Closes the interval: metrics, then the sample, then the flows, then the reset that
        happens whether or not the store took them. */
    method Flush(now: Moment)
      requires Valid() && engine != null
      modifies this, store
      ensures Valid() && engine == old(engine) && captureInterface == old(captureInterface)
      ensures session == old(session) && recent == old(recent) && setting == old(setting)
      ensures interval == [] && Stream() == old(Stream())
      ensures previousPackets == engine.packets && previousBytes == engine.wireBytes
      ensures retired == old(retired)
      ensures Justified(now.Calm())
      ensures now.sampleFault != InsertFails ==> unstored == old(unstored)
      ensures Stored(old(Stores()), Stores(), Growth(), old(protocols), old(flows), now)
      ensures Detailed(store.samples, now, old(interval))
      ensures trace == Extend(old(trace), old(interval), now, old(flowsOmitted),
        RowsRemoved(old(Stores()), Stores(), old(flows), now), SamplesRemoved(old(Stores()), Growth(), old(protocols), now))
      ensures metrics.Some? && Reported(metrics.value, now, old(flows), old(talkers), captureInterface, old(interval), engine.metadataDropped)
    {
      hide FlowsAre, TalkersAre, ProtocolsAre, AmountOf, SampleSum, FlowItems, Total, Reported, Last, Stored, Traced, KeySet;
      hide RowsRemoved, SamplesRemoved, Extend, CaptureEngine.Valid, Detailed;
      var delta := Since(Previous(), Amount(engine.packets, engine.wireBytes));
      Report(now);
      ghost var was, counts, closing, packets := Stores(), protocols, flows, interval;
      Settle(delta, now);
      StoredDetails(was, Stores(), delta, counts, closing, now, packets);
      previousPackets, previousBytes := engine.packets, engine.wireBytes;
    }

    method Report(now: Moment)
      requires Aggregates() && engine != null
      modifies `metrics
      ensures metrics.Some? && Reported(metrics.value, now, flows, talkers, captureInterface, interval, engine.metadataDropped)
    {
      hide FlowsAre, TalkersAre, ProtocolsAre, TopOf, Last;
      var top := TopTalkers(talkers);
      metrics := Some(Metrics(now.timestamp, protocols, top, talkersOmitted, flowsOmitted,
                              engine.metadataDropped == 0 && talkersOmitted == 0));
    }

    method Settle(delta: Amount, now: Moment)
      requires Aggregates() && SampleLedger() && FlowLedger() && Recorded()
      modifies store, `expired, `unstored, `lost, `evicted, `capped, `flushed, `trace
      modifies `flows, `flowsOmitted, `talkers, `talkersOmitted, `protocols, `interval
      ensures Aggregates() && FlowLedger() && Recorded()
      ensures interval == [] && Stream() == old(Stream()) && Justified(now.Calm())
      ensures samplesBefore.Plus(retired).Plus(Amount(previousPackets, previousBytes)).Plus(delta) ==
              SampleSum(store.samples).Plus(expired).Plus(unstored)
      ensures now.sampleFault != InsertFails ==> unstored == old(unstored)
      ensures Stored(old(Stores()), Stores(), delta, old(protocols), old(flows), now)
      ensures trace == Extend(old(trace), old(interval), now, old(flowsOmitted),
        RowsRemoved(old(Stores()), Stores(), old(flows), now), SamplesRemoved(old(Stores()), delta, old(protocols), now))
    {
      hide FlowsAre, TalkersAre, ProtocolsAre, AmountOf, SampleSum, FlowItems, Total, Last, Stored, Traced, KeySet;
      hide RowsRemoved, SamplesRemoved, ApplianceRuntime.Aggregates, ApplianceRuntime.SampleLedger, Amount.Plus;
      ghost var total, row, refused := Total(flushed, watched), AmountOf(flows, watched), capped;
      ghost var was, keys, closing, counts, omitted, packets := Stores(), KeySet(flushed), flows, protocols, flowsOmitted, interval;
      FlowsExact();
      Put(delta, now);
      CloseInterval();
      Closed(rowBefore, total, row, refused, Total(flushed, watched), capped, AmountOf(store.flows, watched), lost, evicted);
      NothingPending(captureInterface, flushed);
      TraceExtends(trace, keys, was, Stores(), origin, delta, counts, closing, omitted, captureInterface, packets, now);
      KeySetConcat(old(flushed), FlowItems(captureInterface, packets));
      trace := Extend(trace, packets, now, omitted, RowsRemoved(was, Stores(), closing, now), SamplesRemoved(was, delta, counts, now));
    }

    lemma FlowsExact()
      requires Aggregates()
      ensures FlowsAre(flows, flowsOmitted, captureInterface, interval)
    {
    }

    /** The storage attempts of a flush; a failed sample keeps the flows from being tried. */
    method Put(delta: Amount, now: Moment)
      requires SampleLedger() && FlowLedger()
      modifies store, `expired, `unstored, `lost, `evicted
      ensures samplesBefore.Plus(retired).Plus(Amount(previousPackets, previousBytes)).Plus(delta) ==
              SampleSum(store.samples).Plus(expired).Plus(unstored)
      ensures rowBefore.Plus(Total(flushed, watched)).Plus(AmountOf(flows, watched)) ==
              AmountOf(store.flows, watched).Plus(capped).Plus(lost).Plus(evicted)
      ensures now.sampleFault != InsertFails ==> unstored == old(unstored)
      ensures now.Calm() ==> lost == old(lost)
      ensures Stored(old(Stores()), Stores(), delta, protocols, flows, now)
      ensures RowsRemoved(old(Stores()), Stores(), flows, now) == 0 ==> evicted == old(evicted)
      ensures SamplesRemoved(old(Stores()), delta, protocols, now) == 0 ==> expired == old(expired)
    {
      hide AmountOf, SampleSum, Total, SampleUpsert, Retained, Merge, Gone, Expired, Amount.Plus, SampleTaken, RowsTaken;
      hide Stored, Commits;
      ghost var was := Stores();
      var ok := StoreSample(delta, now);
      TryFlows(ok, now);
      TablesStored(was, Stores(), delta, protocols, flows, now);
    }

    method TryFlows(sampled: bool, now: Moment)
      requires sampled <==> now.sampleFault == NoFault
      modifies store`flows, `lost, `evicted
      ensures old(AmountOf(store.flows, watched).Plus(capped).Plus(lost).Plus(evicted)).Plus(AmountOf(flows, watched)) ==
              AmountOf(store.flows, watched).Plus(capped).Plus(lost).Plus(evicted)
      ensures if Commits(flows, now) then Retained(Merge(old(store.flows), flows), store.flows, now.cutoff)
              else store.flows == old(store.flows)
      ensures now.Calm() ==> lost == old(lost)
      ensures !Commits(flows, now) || Gone(Merge(old(store.flows), flows), store.flows) == 0 ==> evicted == old(evicted)
    {
      hide AmountOf, Retained, Merge, Gone, Amount.Plus;
      if sampled {
        var ok := StoreFlows(now);
      } else {
        RolledBack(AmountOf(store.flows, watched), AmountOf(flows, watched), capped, lost, evicted);
        lost := lost.Plus(AmountOf(flows, watched));
      }
    }

    method StoreSample(delta: Amount, now: Moment) returns (ok: bool)
      requires SampleLedger()
      modifies store`samples, `expired, `unstored
      ensures samplesBefore.Plus(retired).Plus(Amount(previousPackets, previousBytes)).Plus(delta) ==
              SampleSum(store.samples).Plus(expired).Plus(unstored)
      ensures ok <==> now.sampleFault == NoFault
      ensures now.sampleFault != InsertFails ==> unstored == old(unstored)
      ensures now.sampleFault == InsertFails ==> store.samples == old(store.samples)
      ensures now.sampleFault != InsertFails ==>
        SampleTaken(old(store.samples), store.samples, now.timestamp, delta, protocols, now.sampleFault == NoFault)
      ensures var all := SampleUpsert(old(store.samples), now.timestamp, delta, protocols);
              && (now.sampleFault == CleanupFails ==> store.samples == all)
              && (now.sampleFault == NoFault ==> store.samples == all - Expired(all, now.timestamp))
              && (now.sampleFault == NoFault ==> |Expired(all, now.timestamp)| == 0 ==> expired == old(expired))
      ensures now.sampleFault != NoFault ==> expired == old(expired)
    {
      hide SampleUpsert, SampleSum, ExpiredSum, Amount.Plus, SampleTaken;
      ghost var before := store.samples;
      ghost var all := SampleUpsert(before, now.timestamp, delta, protocols);
      SampleStored(before, now.timestamp, delta, protocols);
      SampleBalance(samplesBefore.Plus(retired).Plus(Amount(previousPackets, previousBytes)), SampleSum(before), expired, unstored,
                    delta, SampleSum(all), SampleSum(all - Expired(all, now.timestamp)), ExpiredSum(all, now.timestamp));
      ok := store.Sample(now.timestamp, delta, protocols, now.sampleFault);
      match now.sampleFault
      case InsertFails => unstored := unstored.Plus(delta);
      case CleanupFails =>
      case NoFault =>
        if |Expired(all, now.timestamp)| == 0 {
          NothingExpired(all, now.timestamp);
          PlusZero(expired);
        }
        expired := expired.Plus(ExpiredSum(all, now.timestamp));
    }

    method StoreFlows(now: Moment) returns (ok: bool)
      modifies store`flows, `lost, `evicted
      ensures old(AmountOf(store.flows, watched).Plus(capped).Plus(lost).Plus(evicted)).Plus(AmountOf(flows, watched)) ==
              AmountOf(store.flows, watched).Plus(capped).Plus(lost).Plus(evicted)
      ensures ok <==> now.flowFault.None? || now.flowFault.value > |flows|
      ensures ok ==> lost == old(lost) && Retained(Merge(old(store.flows), flows), store.flows, now.cutoff)
      ensures ok ==> Gone(Merge(old(store.flows), flows), store.flows) == 0 ==> evicted == old(evicted)
      ensures !ok ==> store.flows == old(store.flows) && evicted == old(evicted)
    {
      hide AmountOf, Retained, Evicted, Merge, Gone, Amount.Plus;
      ghost var stored := store.flows;
      ok := WriteFlows(now);
      if ok {
        Committed(stored, flows, store.flows, now.cutoff, watched, capped, lost, evicted);
        evicted := evicted.Plus(Evicted(Merge(stored, flows), store.flows, watched));
      } else {
        RolledBack(AmountOf(stored, watched), AmountOf(flows, watched), capped, lost, evicted);
        lost := lost.Plus(AmountOf(flows, watched));
      }
    }

    method WriteFlows(now: Moment) returns (ok: bool)
      modifies store`flows
      ensures ok <==> now.flowFault.None? || now.flowFault.value > |flows|
      ensures ok ==> Retained(Merge(old(store.flows), flows), store.flows, now.cutoff)
      ensures !ok ==> store.flows == old(store.flows)
    {
      hide FlowUpserts, Retained, Merge, RowTaken, RecordsOf;
      var batch := MakeBatch(flows, store.flows);
      ok := store.RecordFlows(batch, now.cutoff, now.flowFault);
    }

    /** Empties the aggregates, handing the interval's items over to the closed ones. */
    method CloseInterval()
      requires Aggregates()
      modifies `flows, `flowsOmitted, `talkers, `talkersOmitted, `protocols, `interval, `flushed, `capped
      ensures Aggregates() && interval == [] && (old(flowsOmitted) == 0 ==> capped == old(capped))
      ensures flushed == old(flushed) + FlowItems(captureInterface, old(interval))
      ensures old(Total(flushed, watched)).Plus(old(AmountOf(flows, watched))).Plus(capped) ==
              Total(flushed, watched).Plus(old(capped))
    {
      hide FlowsAre, TalkersAre, ProtocolsAre, AmountOf, FlowItems, Total, Last, Refused, Amount.Plus;
      ghost var items, row := FlowItems(captureInterface, interval), AmountOf(flows, watched);
      ghost var refused := Refused(flows, items, watched);
      RowIsTotal(flows, flowsOmitted, captureInterface, interval, watched);
      TotalOfConcat(flushed, items, watched);
      HandedOver(Total(flushed, watched), row, refused, capped);
      if flowsOmitted == 0 {
        NothingRefused(flows, flowsOmitted, captureInterface, interval, watched);
        PlusZero(capped);
      }
      capped := capped.Plus(refused);
      flushed := flushed + items;
      Empty();
    }

    method Empty()
      requires recent == Last(session, RECENT)
      modifies `flows, `flowsOmitted, `talkers, `talkersOmitted, `protocols, `interval
      ensures Aggregates() && interval == []
    {
      hide FlowsAre, TalkersAre, ProtocolsAre, Last;
      EmptyInterval(captureInterface);
      protocols, talkers, flows, talkersOmitted, flowsOmitted := NO_PROTOCOLS, map[], map[], 0, 0;
      interval := [];
    }

    /** Every packet the runtime still holds or has ever closed an interval on. */
    ghost function Held(): seq<Packet>
      reads `trace, `interval, `engine, engine
    {
      trace.packets + interval + if engine == null then [] else engine.queue
    }

    /** Nothing comes in but these packets, and no flush happens but at this moment. */
    twostate predicate Fed(packets: seq<Packet>, now: Option<Moment>)
      reads `trace, `interval, `engine, engine
    {
      OnlyAt(old(trace).flushes, trace.flushes, now) && OnlyFrom(old(Held()), Held(), packets)
    }

    /** One turn of the control thread, or a forced sample: drain, aggregate, and, once a second has
        passed, flush. `between` is what the worker captures between the drain and the counters. */
    method Sample(force: bool, due: bool, between: seq<Packet>, now: Moment)
      returns (ghost taken: seq<Packet>, ghost closing: map<string, FlowRow>, ghost omitted: nat, ghost counts: Protocols)
      requires Valid() && (engine == null || !engine.running ==> between == [])
      modifies this, store, engine
      ensures Valid() && engine == old(engine) && captureInterface == old(captureInterface) && setting == old(setting)
      ensures engine == null ==> unchanged(this) && unchanged(store)
      ensures engine != null ==> engine.running == old(engine.running)
      ensures engine != null ==> engine.seen == old(engine.seen) + between
      ensures session == old(session) + taken && Stream() == old(Stream()) + FlowItems(captureInterface, taken)
      ensures engine != null && (force || due) ==>
        interval == [] && previousPackets == engine.packets && previousBytes == engine.wireBytes
      ensures engine != null ==> engine.packets >= old(previousPackets) && engine.wireBytes >= old(previousBytes)
      ensures engine != null ==> taken == old(engine.queue)
      ensures engine != null && (force || due) ==>
        && ExactFor(closing, omitted, counts, captureInterface, old(interval) + taken)
        && Stored(old(Stores()), Stores(), Growth(), counts, closing, now)
        && Detailed(store.samples, now, old(interval) + taken)
        && trace == Extend(old(trace), old(interval) + taken, now, omitted,
             RowsRemoved(old(Stores()), Stores(), closing, now), SamplesRemoved(old(Stores()), Growth(), counts, now))
      ensures engine != null && !force && !due ==> trace == old(trace) && interval == old(interval) + taken
      ensures engine != null && !force && !due ==> unchanged(store) && previousPackets == old(previousPackets)
      ensures engine != null && !engine.running ==> engine.queue == []
      ensures Justified(now.Calm()) && Fed(between, Some(now))
      ensures retired == old(retired)
    {
      hide FlowItems, Stored, Reported, ExactFor, Since, RowsRemoved, SamplesRemoved, OnlyAt, OnlyFrom, CaptureEngine.Valid, Detailed;
      hide ApplianceRuntime.Valid, ApplianceRuntime.Stream;
      OneMoment(trace.flushes, now);
      ghost var closed, earlier := trace.packets, interval;
      taken, closing, omitted, counts := [], flows, flowsOmitted, protocols;
      Unchanged();
      if engine == null {
        NothingTaken(between);
        return;
      }
      NotBehind();
      taken := Take();
      Arrive(between, false);
      NotBehind();
      MovedOn(closed, earlier, taken, engine.queue, between);
      closing, omitted, counts := flows, flowsOmitted, protocols;
      if !due && !force { return; }
      Flush(now);
    }

    /** The counters never run behind the ones of the last sample. */
    lemma NotBehind()
      requires Valid() && engine != null
      ensures engine.packets >= previousPackets && engine.wireBytes >= previousBytes
      ensures ExactFor(flows, flowsOmitted, protocols, captureInterface, interval)
    {
      hide FlowsAre, TalkersAre, ProtocolsAre, AmountOf, SampleSum, Total, Last, CaptureEngine.Valid;
    }

    lemma NothingTaken(packets: seq<Packet>)
      ensures OnlyFrom(Held(), Held(), packets)
    {
    }

    lemma Unchanged()
      ensures Stream() == Stream() + FlowItems(captureInterface, [])
    {
    }

    lemma Streamed(was: seq<Packet>, packets: seq<Packet>)
      requires interval == was + packets
      ensures Stream() == (flushed + FlowItems(captureInterface, was)) + FlowItems(captureInterface, packets)
    {
      FlowItemsConcat(captureInterface, was, packets);
    }

    lemma QueueFits()
      requires Capturing() && engine != null
      ensures |engine.queue| <= QUEUE
    {
    }

    /** Drains the queue, all of it if nothing is added meanwhile, into the interval. */
    method Take() returns (packets: seq<Packet>)
      requires Valid() && engine != null
      modifies engine`queue, engine`drained
      modifies `flows, `flowsOmitted, `talkers, `talkersOmitted, `protocols, `recent, `interval, `session
      ensures Valid() && engine.queue == [] && packets == old(engine.queue)
      ensures interval == old(interval) + packets && session == old(session) + packets
      ensures Stream() == old(Stream()) + FlowItems(captureInterface, packets)
    {
      hide ApplianceRuntime.Recorded, ApplianceRuntime.FlowLedger, ApplianceRuntime.SampleLedger, ApplianceRuntime.Aggregates;
      hide FlowItems, CaptureEngine.Valid;
      QueueFits();
      ghost var was := interval;
      packets := engine.Drain(QUEUE);
      Absorb(packets);
      Streamed(was, packets);
    }

    /** What the capture worker does between two steps of the control thread. */
    method Arrive(arrivals: seq<Packet>, ends: bool)
      requires Valid() && (engine == null || !engine.running ==> arrivals == [])
      modifies engine
      ensures Valid()
      ensures engine != null ==> engine.seen == old(engine.seen) + arrivals
      ensures engine != null ==> engine.running == (old(engine.running) && !ends)
      ensures engine != null && arrivals == [] ==> engine.queue == old(engine.queue)
      ensures Fed(arrivals, None)
      ensures engine != null ==> forall p | p in engine.queue :: p in old(engine.queue) || p in arrivals
    {
      hide ApplianceRuntime.Recorded, ApplianceRuntime.Aggregates, ApplianceRuntime.FlowLedger, ApplianceRuntime.SampleLedger, CaptureEngine.Valid;
      if engine != null {
        engine.Capture(arrivals);
        if ends { engine.Stop(); }
      }
    }

    /** Captures from another interface. The earlier capture is stopped and sampled before anything
        that may still fail, so a failure leaves it in place, stopped. */
    method StartCapture(name: string, obstacle: Obstacle, now: Moment) returns (ok: bool)
      requires Valid()
      modifies this, store, engine
      ensures Valid()
      ensures ok <==> CaptureName(name) && obstacle == Clear
      ensures ok ==> fresh(engine) && engine.running && engine.seen == [] && session == [] && recent == []
      ensures ok ==> engine.capacity == 8192
      ensures ok ==> captureInterface == name && setting == name && metrics == None
      ensures ok && old(engine) != null ==>
        retired == old(retired).Plus(Amount(old(engine).packets, old(engine).wireBytes))
      ensures !ok ==> engine == old(engine) && captureInterface == old(captureInterface) && setting == old(setting)
      ensures !CaptureName(name) || obstacle == SourceFails ==> unchanged(this) && unchanged(store) && (engine != null ==> unchanged(engine))
      ensures CaptureName(name) && obstacle != SourceFails && old(engine) != null ==>
        !old(engine).running && old(engine).queue == [] && old(engine).seen == old(engine.seen)
      ensures Justified(now.Calm()) && Fed([], Some(now))
    {
      hide ApplianceRuntime.Recorded, ApplianceRuntime.Aggregates, ApplianceRuntime.FlowLedger, ApplianceRuntime.SampleLedger;
      hide CaptureName;
      var accepted := AcceptsName(name);
      if !accepted || obstacle == SourceFails { return false; }
      var next := new CaptureEngine(QUEUE);
      StopAndSample(now);
      if obstacle == StartFails { return false; }
      next.Start();
      if obstacle == PutFails { return false; }
      setting := name;
      Retire(next, name);
      return true;
    }

    method Retire(next: CaptureEngine, name: string)
      requires Valid() && interval == []
      requires next.Valid() && next.capacity == QUEUE && next.drained == []
      modifies this
      ensures Valid() && engine == next && captureInterface == name && setting == old(setting)
      ensures session == [] && recent == [] && metrics == None
      ensures retired == old(retired).Plus(Amount(old(previousPackets), old(previousBytes)))
      ensures Justified(true) && trace == old(trace) && interval == []
    {
      hide ApplianceRuntime.Recorded, ApplianceRuntime.Aggregates, ApplianceRuntime.FlowLedger, ApplianceRuntime.SampleLedger;
      hide CaptureEngine.Valid, Amount.Plus;
      engine := next;
      RetireCounters();
      Reset(name);
    }

    method RetireCounters()
      requires SampleLedger()
      modifies `retired, `previousPackets, `previousBytes
      ensures SampleLedger() && previousPackets == 0 && previousBytes == 0
      ensures retired == old(retired).Plus(old(Previous()))
    {
      hide SampleSum, Amount.Plus;
      RetirePrevious(samplesBefore, retired, Previous());
      retired := retired.Plus(Previous());
      previousPackets, previousBytes := 0, 0;
    }

    method Reset(name: string)
      modifies `flows, `flowsOmitted, `talkers, `talkersOmitted, `protocols, `recent, `session, `interval
      modifies `captureInterface, `metrics
      ensures Aggregates() && captureInterface == name && session == [] && interval == [] && recent == [] && metrics == None
    {
      hide FlowsAre, TalkersAre, ProtocolsAre, Last;
      EmptyInterval(name);
      captureInterface := name;
      protocols, talkers, flows, recent, metrics := NO_PROTOCOLS, map[], map[], [], None;
      talkersOmitted, flowsOmitted := 0, 0;
      session, interval := [], [];
    }

    /** Ends the worker and takes everything it queued. */
    method StopAndSample(now: Moment)
      requires Valid()
      modifies this, store, engine
      ensures Valid() && engine == old(engine) && captureInterface == old(captureInterface) && setting == old(setting)
      ensures interval == [] && retired == old(retired)
      ensures engine != null ==> !engine.running && engine.queue == [] && engine.seen == old(engine.seen)
      ensures engine != null ==> previousPackets == engine.packets && previousBytes == engine.wireBytes
      ensures engine != null ==>
        samplesBefore.Plus(retired).Plus(Amount(|engine.seen|, Bytes(engine.seen))) ==
        SampleSum(store.samples).Plus(expired).Plus(unstored)
      ensures Justified(now.Calm()) && Fed([], Some(now))
    {
      hide Stored, Reported, ExactFor, Since, RowsRemoved, SamplesRemoved, Extend, Traced, OnlyFrom, OnlyAt, Detailed;
      hide FlowsAre, TalkersAre, ProtocolsAre, Last, AmountOf, Total, FlowItems;
      OneMoment(trace.flushes, now);
      NothingTaken([]);
      if engine != null {
        engine.Stop();
        ghost var taken, closing, omitted, counts := Sample(true, false, [], now);
      }
    }

    /** The delete branch of the capture endpoint; also, without the setting, the shutdown of the control thread. */
    method StopCapture(putOk: bool, now: Moment) returns (ok: bool)
      requires Valid()
      modifies this, store, engine
      ensures Valid() && engine == null && captureInterface == ""
      ensures ok == putOk && setting == if putOk then "" else old(setting)
      ensures old(engine) != null ==> !old(engine).running && old(engine).queue == [] && old(engine).seen == old(engine.seen)
      ensures old(engine) != null ==> previousPackets == old(engine).packets && previousBytes == old(engine).wireBytes
      ensures retired == old(retired)
      ensures Justified(now.Calm()) && Fed([], Some(now))
    {
      hide ApplianceRuntime.Recorded, ApplianceRuntime.FlowLedger, ApplianceRuntime.SampleLedger, CaptureEngine.Valid;
      hide FlowsAre, TalkersAre, ProtocolsAre, Last;
      StopAndSample(now);
      AnyInterface(flows, flowsOmitted, captureInterface, "");
      engine, captureInterface := null, "";
      if putOk { setting := ""; }
      return putOk;
    }
  }

  /** What the metrics of an interval say about its packets. */
  ghost predicate Reported(m: Metrics, now: Moment, flows: map<string, FlowRow>, talkers: map<string, nat>,
                           iface: string, packets: seq<Packet>, dropped: nat)
  {
    && m.timestamp == now.timestamp && ProtocolsAre(m.protocols, packets)
    && TopOf(m.topTalkers, talkers) && TalkersAre(talkers, m.talkersOmitted, packets)
    && FlowsAre(flows, m.flowsOmitted, iface, packets)
    && (m.breakdownComplete <==> dropped == 0 && m.talkersOmitted == 0)
  }

  // ---- Whole runs ----

  /** One step of the control thread, or of the capture worker between two of them. */
  datatype Action =
    | Arrival(packets: seq<Packet>, ends: bool)
    | Turn(due: bool, between: seq<Packet>, now: Moment)
    | Start(name: string, obstacle: Obstacle, now: Moment)
    | Delete(putOk: bool, now: Moment)
  {
    predicate Calm() {
      Arrival? || now.Calm()
    }

    function Now(): Option<Moment> {
      if Arrival? then None else Some(now)
    }

    function Packets(): seq<Packet> {
      match this
      case Arrival(packets, _) => packets
      case Turn(_, between, _) => between
      case _ => []
    }
  }

  predicate AllCalm(actions: seq<Action>) {
    forall i | 0 <= i < |actions| :: actions[i].Calm()
  }

  /** No clean-up looks back as far as a horizon that no packet given, and no row there before, precedes. */
  ghost predicate NothingOld(origin: Tables, packets: seq<Packet>, flushes: seq<Moment>, actions: seq<Action>, horizon: int) {
    && (forall k | k in origin.rows :: origin.rows[k].lastSeen >= horizon)
    && (forall p | p in packets && p.source != "" :: p.timestamp >= horizon)
    && (forall m | m in flushes :: m.cutoff <= horizon)
    && (forall i | 0 <= i < |actions| :: actions[i].Now().Some? ==> actions[i].Now().value.cutoff <= horizon)
    && (forall i, p | 0 <= i < |actions| && p in actions[i].Packets() && p.source != "" :: p.timestamp >= horizon)
  }

  /** All samples, there before or taken in the run, fall into one week. */
  ghost predicate OneWeek(origin: Tables, flushes: seq<Moment>, actions: seq<Action>, first: int) {
    && (forall t | t in origin.samples :: t >= first)
    && (forall m | m in flushes :: first <= m.timestamp <= first + WEEK)
    && (forall i | 0 <= i < |actions| && actions[i].Now().Some? :: first <= actions[i].Now().value.timestamp <= first + WEEK)
  }

  /** Any interleaving of captures, samples and switches keeps both ledgers, and nothing gets in but what
      the actions bring. Where the store is calm, the stream has no more keys than fit, and nothing is
      old, a run from the start with every interval closed leaves in the table the direct sum over
      everything drained; and within one week no sample expires. */
  method Run(runtime: ApplianceRuntime, actions: seq<Action>, ghost horizon: int, ghost first: int)
    requires runtime.Valid()
    modifies runtime, runtime.store, runtime.engine
    ensures runtime.Valid() && runtime.Justified(AllCalm(actions))
    ensures var keys := KeySet(runtime.Stream());
            old(Untouched(runtime)) && runtime.interval == [] && AllCalm(actions) &&
            |keys| <= FLOW_CAP && |runtime.origin.rows.Keys + keys| <= MAX_FLOWS &&
            NothingOld(runtime.origin, old(runtime.Held()), old(runtime.trace).flushes, actions, horizon) ==>
              AmountOf(runtime.store.flows, runtime.watched) ==
              runtime.rowBefore.Plus(Total(runtime.Stream(), runtime.watched))
    ensures old(runtime.trace).removedSamples == 0 &&
            OneWeek(runtime.origin, old(runtime.trace).flushes, actions, first) ==>
              runtime.expired == old(runtime.expired)
  {
    ghost var held, flushes := runtime.Held(), runtime.trace.flushes;
    RunActions(runtime, actions);
    StoredIsDirectSum(runtime);
    NothingMissed(runtime, held, flushes, actions, horizon, first);
  }

  /** Nothing has been turned away, lost or removed yet. */
  ghost predicate Untouched(runtime: ApplianceRuntime)
    reads runtime
  {
    && runtime.trace.omissions == 0 && runtime.trace.removedRows == 0
    && runtime.capped == runtime.lost == runtime.evicted == ZERO
  }

  /** Packets and flushes of a run are its own or those it began with. */
  ghost predicate Given(runtime: ApplianceRuntime, held: seq<Packet>, flushes: seq<Moment>, actions: seq<Action>, n: nat)
    requires n <= |actions|
    reads runtime, runtime.engine
  {
    && (forall m | m in runtime.trace.flushes :: m in flushes || exists i :: 0 <= i < n && actions[i].Now() == Some(m))
    && (forall p | p in runtime.Held() :: p in held || exists i :: 0 <= i < n && p in actions[i].Packets())
  }

  lemma NothingMissed(runtime: ApplianceRuntime, held: seq<Packet>, flushes: seq<Moment>, actions: seq<Action>,
                      horizon: int, first: int)
    requires runtime.Valid() && Given(runtime, held, flushes, actions, |actions|)
    ensures runtime.interval == [] && |KeySet(runtime.Stream())| <= FLOW_CAP ==> runtime.trace.omissions == 0
    ensures runtime.interval == [] && |runtime.origin.rows.Keys + KeySet(runtime.Stream())| <= MAX_FLOWS &&
            NothingOld(runtime.origin, held, flushes, actions, horizon) ==>
              runtime.trace.removedRows == 0
    ensures OneWeek(runtime.origin, flushes, actions, first) ==> runtime.trace.removedSamples == 0
  {
    hide FlowsAre, TalkersAre, ProtocolsAre, Last, AmountOf, SampleSum, Total, From, Sampled, KeySet, CaptureEngine.Valid;
    hide FlowItems;
    NothingPending(runtime.captureInterface, runtime.flushed);
    if NothingOld(runtime.origin, held, flushes, actions, horizon) {
      assert forall p | p in runtime.trace.packets :: p in runtime.Held();
      assert Timely(runtime.origin.rows, runtime.trace.packets, runtime.trace.flushes);
    }
    if OneWeek(runtime.origin, flushes, actions, first) {
      assert Weekly(runtime.origin.samples, runtime.trace.flushes);
    }
  }

  method RunActions(runtime: ApplianceRuntime, actions: seq<Action>)
    requires runtime.Valid()
    modifies runtime, runtime.store, runtime.engine
    ensures runtime.Valid() && runtime.Justified(AllCalm(actions))
    ensures Given(runtime, old(runtime.Held()), old(runtime.trace).flushes, actions, |actions|)
  {
    hide ApplianceRuntime.Valid, Action.Calm, Action.Now, Action.Packets, ApplianceRuntime.Held;
    for i := 0 to |actions|
      invariant runtime.Valid() && runtime.Justified(forall j | 0 <= j < i :: actions[j].Calm())
      invariant runtime.engine == old(runtime.engine) || runtime.engine == null || fresh(runtime.engine)
      invariant Given(runtime, old(runtime.Held()), old(runtime.trace).flushes, actions, i)
    {
      Act(runtime, actions[i]);
    }
  }

  method Act(runtime: ApplianceRuntime, action: Action)
    requires runtime.Valid()
    modifies runtime, runtime.store, runtime.engine
    ensures runtime.Valid() && runtime.Justified(action.Calm()) && runtime.Fed(action.Packets(), action.Now())
    ensures runtime.engine == old(runtime.engine) || runtime.engine == null || fresh(runtime.engine)
  {
    hide ApplianceRuntime.Valid, Moment.Calm, ApplianceRuntime.Held;
    var running := runtime.engine != null && runtime.engine.running;
    match action {
      case Arrival(packets, ends) => runtime.Arrive(if running then packets else [], ends);
      case Turn(due, between, now) =>
        ghost var taken, closing, omitted, counts := runtime.Sample(false, due, if running then between else [], now);
      case Start(name, obstacle, now) => var ok := runtime.StartCapture(name, obstacle, now);
      case Delete(putOk, now) => var ok := runtime.StopCapture(putOk, now);
    }
  }

  /** Two stages of aggregation against one pass: whatever the flushes, what is stored under a key and
      what is pending, plus the three ways a packet can miss the table, is the direct sum over the stream. */
  lemma StoredIsDirectSum(runtime: ApplianceRuntime)
    requires runtime.Valid()
    ensures var key, pending := runtime.watched, FlowItems(runtime.captureInterface, runtime.interval);
            runtime.rowBefore.Plus(Total(runtime.Stream(), key)) ==
            AmountOf(runtime.store.flows, key).Plus(AmountOf(runtime.flows, key)).Plus(Refused(runtime.flows, pending, key))
              .Plus(runtime.capped).Plus(runtime.lost).Plus(runtime.evicted)
    ensures runtime.interval == [] && runtime.capped == runtime.lost == runtime.evicted == ZERO ==>
            AmountOf(runtime.store.flows, runtime.watched) == runtime.rowBefore.Plus(Total(runtime.Stream(), runtime.watched))
  {
    var key, pending := runtime.watched, FlowItems(runtime.captureInterface, runtime.interval);
    Balanced(runtime);
    TotalOfConcat(runtime.flushed, pending, key);
    RowIsTotal(runtime.flows, runtime.flowsOmitted, runtime.captureInterface, runtime.interval, key);
    NothingPending(runtime.captureInterface, runtime.flushed);
    hide FlowItems, Total, AmountOf, Refused, FlowsAre, ApplianceRuntime.Valid;
    Rebalance(runtime.rowBefore, Total(runtime.flushed, key), AmountOf(runtime.flows, key),
              Refused(runtime.flows, pending, key), AmountOf(runtime.store.flows, key),
              runtime.capped, runtime.lost, runtime.evicted);
  }

  lemma Balanced(runtime: ApplianceRuntime)
    requires runtime.Valid()
    ensures runtime.FlowLedger()
    ensures FlowsAre(runtime.flows, runtime.flowsOmitted, runtime.captureInterface, runtime.interval)
  {
  }

  lemma Rebalance(before: Amount, closed: Amount, row: Amount, refused: Amount, stored: Amount,
                  capped: Amount, lost: Amount, evicted: Amount)
    requires before.Plus(closed) == stored.Plus(capped).Plus(lost).Plus(evicted)
    ensures before.Plus(closed.Plus(row.Plus(refused))) ==
            stored.Plus(row).Plus(refused).Plus(capped).Plus(lost).Plus(evicted)
    ensures capped == lost == evicted == ZERO ==> before.Plus(closed) == stored
  {
  }
}
