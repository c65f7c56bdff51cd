// Where stored rows and samples come from, and when retention has nothing to remove.
module Retention {
  import opened Wrappers
  import opened Engine
  import opened Tally
  import opened Store
  import opened Interval
  import FlowKey

  /** The clock and the disk at one flush. */
  datatype Moment = Moment(timestamp: int, cutoff: int, sampleFault: SampleFault, flowFault: Option<nat>) {
    /** No statement of either table fails. */
    predicate Calm() {
      sampleFault == NoFault && flowFault == None
    }
  }

  // ---- Flow rows ----

  /** A last-seen time is that of a packet with addresses, or of a row there before. */
  ghost predicate Dated(t: int, before: map<string, FlowRow>, packets: seq<Packet>) {
    || (exists k :: k in before && before[k].lastSeen == t)
    || (exists p :: p in packets && p.source != "" && p.timestamp == t)
  }

  /** Every row is one there before or has one of the keys, and is dated accordingly. */
  ghost predicate From(rows: map<string, FlowRow>, before: map<string, FlowRow>, keys: set<string>, packets: seq<Packet>) {
    forall k | k in rows :: (k in before || k in keys) && Dated(rows[k].lastSeen, before, packets)
  }

  /** No packet, and no row there before, is older than any clean-up looks back. */
  ghost predicate Timely(before: map<string, FlowRow>, packets: seq<Packet>, flushes: seq<Moment>) {
    forall m | m in flushes ::
      && (forall k | k in before :: before[k].lastSeen >= m.cutoff)
      && (forall p | p in packets && p.source != "" :: p.timestamp >= m.cutoff)
  }

  lemma {:induction false} TimesOfPackets(iface: string, packets: seq<Packet>, key: string, i: nat)
    requires i < |Times(iface, packets, key)|
    ensures exists p :: p in packets && p.source != "" && p.timestamp == Times(iface, packets, key)[i]
    ensures key in KeySet(FlowItems(iface, packets))
  {
    hide FlowKey.Key;
    var n := |packets| - 1;
    var earlier := packets[..n];
    assert packets == earlier + [packets[n]];
    PacketsSnoc(iface, earlier, packets[n]);
    KeySetConcat(FlowItems(iface, earlier),
                 if packets[n].source == "" then [] else [Item(FlowKey.Key(iface, packets[n]), packets[n].wireBytes)]);
    if i < |Times(iface, earlier, key)| {
      TimesOfPackets(iface, earlier, key, i);
    } else {
      var item := Item(FlowKey.Key(iface, packets[n]), packets[n].wireBytes);
      assert [item][0].key == key;
    }
  }

  lemma IntervalFrom(flows: map<string, FlowRow>, omitted: nat, iface: string, packets: seq<Packet>)
    requires FlowsAre(flows, omitted, iface, packets)
    ensures From(flows, map[], KeySet(FlowItems(iface, packets)), packets)
  {
    hide FlowItems, Times, Capped, KeySet;
    forall k | k in flows
      ensures k in KeySet(FlowItems(iface, packets)) && Dated(flows[k].lastSeen, map[], packets)
    {
      TimesOfPackets(iface, packets, k, |Times(iface, packets, k)| - 1);
    }
  }

  lemma FromGrows(rows: map<string, FlowRow>, before: map<string, FlowRow>, keys: set<string>, packets: seq<Packet>,
                  keys': set<string>, packets': seq<Packet>)
    requires From(rows, before, keys, packets) && keys <= keys' && forall p | p in packets :: p in packets'
    ensures From(rows, before, keys', packets')
  {
    forall k | k in rows
      ensures Dated(rows[k].lastSeen, before, packets')
    {
      assert Dated(rows[k].lastSeen, before, packets);
    }
  }

  lemma MergeFrom(stored: map<string, FlowRow>, flows: map<string, FlowRow>, before: map<string, FlowRow>,
                  keys: set<string>, packets: seq<Packet>, keys': set<string>, packets': seq<Packet>)
    requires From(stored, before, keys, packets) && From(flows, map[], keys', packets')
    ensures From(Merge(stored, flows), before, keys + keys', packets + packets')
  {
    hide Merge;
    FromGrows(stored, before, keys, packets, keys + keys', packets + packets');
    forall k | k in Merge(stored, flows)
      ensures (k in before || k in keys + keys') && Dated(Merge(stored, flows)[k].lastSeen, before, packets + packets')
    {
      MergedAt(stored, flows, k);
      if k in flows { assert Dated(flows[k].lastSeen, map[], packets'); }
    }
  }

  /** How many rows a clean-up removed. */
  function Gone(all: map<string, FlowRow>, flows: map<string, FlowRow>): nat {
    |all.Keys - flows.Keys|
  }

  /** A recent row is removed only when more rows than the limit were there. */
  lemma TooFew(all: map<string, FlowRow>, rows: map<string, FlowRow>, before: map<string, FlowRow>,
               keys: set<string>, packets: seq<Packet>, m: Moment, k: string)
    requires From(all, before, keys, packets) && Timely(before, packets, [m]) && Retained(all, rows, m.cutoff)
    requires k in all && k !in rows
    ensures |before.Keys + keys| > MAX_FLOWS
  {
    assert m in [m];
    assert Dated(all[k].lastSeen, before, packets);
    assert |rows| == MAX_FLOWS;
    assert rows.Keys + {k} <= before.Keys + keys;
    FewerKeys(rows.Keys + {k}, before.Keys + keys);
    assert |rows.Keys + {k}| == |rows.Keys| + 1;
  }

  /** Few enough rows, all of them recent, are all kept. */
  lemma NothingGone(all: map<string, FlowRow>, rows: map<string, FlowRow>, before: map<string, FlowRow>,
                    keys: set<string>, packets: seq<Packet>, m: Moment)
    requires From(all, before, keys, packets) && Timely(before, packets, [m]) && |before.Keys + keys| <= MAX_FLOWS
    requires Retained(all, rows, m.cutoff)
    ensures Gone(all, rows) == 0
  {
    forall k | k in all
      ensures k in rows
    {
      if k !in rows { TooFew(all, rows, before, keys, packets, m, k); }
    }
    assert all.Keys - rows.Keys == {};
  }

  // ---- Samples ----

  function Expired(samples: map<int, SampleRow>, ts: int): set<int> {
    set t | t in samples && t < ts - WEEK
  }

  ghost predicate Sampled(samples: map<int, SampleRow>, before: map<int, SampleRow>, flushes: seq<Moment>) {
    forall t | t in samples :: t in before || exists m :: m in flushes && m.timestamp == t
  }

  /** No sample, new or there before, is more than a week older than a flush. */
  ghost predicate Weekly(before: map<int, SampleRow>, flushes: seq<Moment>) {
    forall m | m in flushes ::
      && (forall t | t in before :: t >= m.timestamp - WEEK)
      && (forall n | n in flushes :: n.timestamp >= m.timestamp - WEEK)
  }

  lemma UpsertSampled(samples: map<int, SampleRow>, before: map<int, SampleRow>, flushes: seq<Moment>,
                      m: Moment, amount: Amount, protocols: Protocols)
    requires Sampled(samples, before, flushes)
    ensures Sampled(samples, before, flushes + [m])
    ensures Sampled(SampleUpsert(samples, m.timestamp, amount, protocols), before, flushes + [m])
  {
    assert m in flushes + [m];
    forall t | t in samples && t !in before
      ensures exists n :: n in flushes + [m] && n.timestamp == t
    {
      var n :| n in flushes && n.timestamp == t;
      assert n in flushes + [m];
    }
  }

  lemma NothingExpires(samples: map<int, SampleRow>, before: map<int, SampleRow>, flushes: seq<Moment>, m: Moment)
    requires Sampled(samples, before, flushes) && Weekly(before, flushes) && m in flushes
    ensures |Expired(samples, m.timestamp)| == 0
  {
    assert Expired(samples, m.timestamp) == {};
  }

  // ---- What a flush does to the tables ----

  datatype Tables = Tables(samples: map<int, SampleRow>, rows: map<string, FlowRow>)

  /** Whether a flush gets as far as committing its batch. */
  predicate Commits(flows: map<string, FlowRow>, now: Moment) {
    now.sampleFault == NoFault && (now.flowFault.None? || now.flowFault.value > |flows|)
  }

  /** The tables after a flush, in each of the ways it can go. */
  ghost predicate Stored(was: Tables, tables: Tables, delta: Amount, protocols: Protocols, flows: map<string, FlowRow>, now: Moment) {
    var all := SampleUpsert(was.samples, now.timestamp, delta, protocols);
    && tables.samples == (match now.sampleFault
                          case InsertFails => was.samples
                          case CleanupFails => all
                          case NoFault => all - Expired(all, now.timestamp))
    && (if Commits(flows, now) then Retained(Merge(was.rows, flows), tables.rows, now.cutoff) else tables.rows == was.rows)
    && StoredFields(was, tables, delta, protocols, flows, now)
  }

  /** The same row by row and field by field. */
  ghost predicate StoredFields(was: Tables, tables: Tables, delta: Amount, protocols: Protocols, flows: map<string, FlowRow>, now: Moment) {
    && (now.sampleFault != InsertFails ==>
          SampleTaken(was.samples, tables.samples, now.timestamp, delta, protocols, now.sampleFault == NoFault))
    && (Commits(flows, now) ==> RowsTaken(was.rows, flows, tables.rows, now.cutoff))
  }

  function RowsRemoved(was: Tables, tables: Tables, flows: map<string, FlowRow>, now: Moment): nat {
    if Commits(flows, now) then Gone(Merge(was.rows, flows), tables.rows) else 0
  }

  function SamplesRemoved(was: Tables, delta: Amount, protocols: Protocols, now: Moment): nat {
    if now.sampleFault == NoFault then |Expired(SampleUpsert(was.samples, now.timestamp, delta, protocols), now.timestamp)|
    else 0
  }

  // ---- The record of a run ----

  /** The packets of closed intervals, the flushes that closed them, and how often a packet can have
      missed the tables for a reason other than a storage error. */
  datatype Trace = Trace(packets: seq<Packet>, flushes: seq<Moment>, omissions: nat, removedRows: nat, removedSamples: nat)

  function Extend(t: Trace, packets: seq<Packet>, now: Moment, omitted: nat, rows: nat, samples: nat): Trace {
    Trace(t.packets + packets, t.flushes + [now], t.omissions + omitted, t.removedRows + rows, t.removedSamples + samples)
  }

  /** The tables hold only what was there before or was flushed, and nothing has been omitted or removed
      unless there was too much of it or it was too old. */
  ghost predicate Traced(t: Trace, keys: set<string>, tables: Tables, origin: Tables) {
    && From(tables.rows, origin.rows, keys, t.packets) && Sampled(tables.samples, origin.samples, t.flushes)
    && (|keys| <= FLOW_CAP ==> t.omissions == 0)
    && (Timely(origin.rows, t.packets, t.flushes) && |origin.rows.Keys + keys| <= MAX_FLOWS ==> t.removedRows == 0)
    && (Weekly(origin.samples, t.flushes) ==> t.removedSamples == 0)
  }

  lemma OmissionsTraced(keys: set<string>, flows: map<string, FlowRow>, omitted: nat, iface: string, packets: seq<Packet>)
    requires FlowsAre(flows, omitted, iface, packets)
    ensures |keys + KeySet(FlowItems(iface, packets))| <= FLOW_CAP ==> |keys| <= FLOW_CAP && omitted == 0
  {
    hide FlowItems, Times, Capped, KeySet;
    var items := FlowItems(iface, packets);
    FewerKeys(keys, keys + KeySet(items));
    FewerKeys(KeySet(items), keys + KeySet(items));
    if |keys + KeySet(items)| <= FLOW_CAP { RoomForAll(items, FLOW_CAP); }
  }

  lemma RowsTraced(t: Trace, keys: set<string>, was: Tables, tables: Tables, origin: Tables, flows: map<string, FlowRow>,
                   keys': set<string>, packets: seq<Packet>, now: Moment)
    requires From(was.rows, origin.rows, keys, t.packets) && From(flows, map[], keys', packets)
    requires if Commits(flows, now) then Retained(Merge(was.rows, flows), tables.rows, now.cutoff) else tables.rows == was.rows
    ensures From(tables.rows, origin.rows, keys + keys', t.packets + packets)
    ensures Timely(origin.rows, t.packets + packets, t.flushes + [now]) && |origin.rows.Keys + (keys + keys')| <= MAX_FLOWS ==>
              RowsRemoved(was, tables, flows, now) == 0
  {
    hide From, Timely, Retained, Merge, Gone;
    FromGrows(was.rows, origin.rows, keys, t.packets, keys + keys', t.packets + packets);
    if Commits(flows, now) {
      MergeFrom(was.rows, flows, origin.rows, keys, t.packets, keys', packets);
      FromKept(Merge(was.rows, flows), tables.rows, now.cutoff, origin.rows, keys + keys', t.packets + packets);
      if Timely(origin.rows, t.packets + packets, t.flushes + [now]) && |origin.rows.Keys + (keys + keys')| <= MAX_FLOWS {
        TimelyLast(origin.rows, t.packets + packets, t.flushes, now);
        NothingGone(Merge(was.rows, flows), tables.rows, origin.rows, keys + keys', t.packets + packets, now);
      }
    }
  }

  lemma FromKept(all: map<string, FlowRow>, rows: map<string, FlowRow>, cutoff: int, before: map<string, FlowRow>,
                 keys: set<string>, packets: seq<Packet>)
    requires From(all, before, keys, packets) && Retained(all, rows, cutoff)
    ensures From(rows, before, keys, packets)
  {
    hide Dated;
  }

  lemma TimelyLast(before: map<string, FlowRow>, packets: seq<Packet>, flushes: seq<Moment>, now: Moment)
    requires Timely(before, packets, flushes + [now])
    ensures Timely(before, packets, [now])
  {
    assert now in flushes + [now];
  }

  /** What was timely in the end was so at every flush. */
  lemma TimelyBefore(before: map<string, FlowRow>, packets: seq<Packet>, more: seq<Packet>, flushes: seq<Moment>, now: Moment)
    requires Timely(before, packets + more, flushes + [now])
    ensures Timely(before, packets, flushes)
  {
    forall m | m in flushes
      ensures m in flushes + [now]
    {
    }
  }

  lemma WeeklyBefore(before: map<int, SampleRow>, flushes: seq<Moment>, now: Moment)
    requires Weekly(before, flushes + [now])
    ensures Weekly(before, flushes) && now in flushes + [now]
  {
    forall m | m in flushes
      ensures m in flushes + [now]
    {
    }
    assert now in flushes + [now];
  }

  lemma SamplesTraced(t: Trace, was: Tables, tables: Tables, origin: Tables, delta: Amount, protocols: Protocols,
                      flows: map<string, FlowRow>, now: Moment)
    requires Sampled(was.samples, origin.samples, t.flushes) && Stored(was, tables, delta, protocols, flows, now)
    ensures Sampled(tables.samples, origin.samples, t.flushes + [now])
    ensures Weekly(origin.samples, t.flushes + [now]) ==> SamplesRemoved(was, delta, protocols, now) == 0
  {
    hide Weekly, SampleUpsert, Retained, Merge, StoredFields;
    var all := SampleUpsert(was.samples, now.timestamp, delta, protocols);
    UpsertSampled(was.samples, origin.samples, t.flushes, now, delta, protocols);
    if Weekly(origin.samples, t.flushes + [now]) {
      WeeklyBefore(origin.samples, t.flushes, now);
      NothingExpires(all, origin.samples, t.flushes + [now], now);
    }
  }

  /** A flush keeps the record true. */
  lemma TraceExtends(t: Trace, keys: set<string>, was: Tables, tables: Tables, origin: Tables, delta: Amount,
                     protocols: Protocols, flows: map<string, FlowRow>, omitted: nat, iface: string, packets: seq<Packet>, now: Moment)
    requires Traced(t, keys, was, origin) && FlowsAre(flows, omitted, iface, packets)
    requires Stored(was, tables, delta, protocols, flows, now)
    ensures Traced(Extend(t, packets, now, omitted, RowsRemoved(was, tables, flows, now), SamplesRemoved(was, delta, protocols, now)),
                   keys + KeySet(FlowItems(iface, packets)), tables, origin)
  {
    hide From, Timely, Weekly, Sampled, Retained, Merge, FlowsAre, KeySet, FlowItems, SampleUpsert, Expired, StoredFields;
    var keys' := KeySet(FlowItems(iface, packets));
    OmissionsTraced(keys, flows, omitted, iface, packets);
    IntervalFrom(flows, omitted, iface, packets);
    RowsTraced(t, keys, was, tables, origin, flows, keys', packets, now);
    SamplesTraced(t, was, tables, origin, delta, protocols, flows, now);
    if Timely(origin.rows, t.packets + packets, t.flushes + [now]) && |origin.rows.Keys + (keys + keys')| <= MAX_FLOWS {
      TimelyBefore(origin.rows, t.packets, packets, t.flushes, now);
      FewerKeys(origin.rows.Keys + keys, origin.rows.Keys + (keys + keys'));
    }
    if Weekly(origin.samples, t.flushes + [now]) {
      WeeklyBefore(origin.samples, t.flushes, now);
    }
  }
}
