// The telemetry tables: additive upserts, retention, and the failures that can
// happen between one SQL statement and the next.
module Store {
  import opened Wrappers
  import opened Tally
  import Amounts

  const WEEK: int := 7 * 86400
  const MAX_FLOWS: nat := 10000

  /** What a metrics sample says about protocols; a later sample of the same second replaces it. */
  datatype Protocols = Protocols(tcp: nat, udp: nat, icmp: nat, other: nat)

  datatype SampleRow = SampleRow(amount: Amount, protocols: Protocols)

  datatype FlowRow = FlowRow(firstSeen: int, lastSeen: int, amount: Amount)

  /** One flow of a batch, as the runtime hands it over. */
  datatype FlowRecord = FlowRecord(key: string, firstSeen: int, timestamp: int, amount: Amount)

  function SampleAmounts(samples: map<int, SampleRow>): map<int, Amount> {
    map t | t in samples :: samples[t].amount
  }

  function FlowAmounts(flows: map<string, FlowRow>): map<string, Amount> {
    map k | k in flows :: flows[k].amount
  }

  function SampleUpsert(samples: map<int, SampleRow>, ts: int, amount: Amount, protocols: Protocols): map<int, SampleRow> {
    var before := if ts in samples then samples[ts].amount else ZERO;
    samples[ts := SampleRow(before.Plus(amount), protocols)]
  }

  function FlowUpsert(flows: map<string, FlowRow>, r: FlowRecord): map<string, FlowRow> {
    if r.key in flows then
      flows[r.key := FlowRow(flows[r.key].firstSeen, r.timestamp, flows[r.key].amount.Plus(r.amount))]
    else flows[r.key := FlowRow(r.firstSeen, r.timestamp, r.amount)]
  }

  function FlowUpserts(flows: map<string, FlowRow>, batch: seq<FlowRecord>): map<string, FlowRow>
    decreases |batch|
  {
    if batch == [] then flows else FlowUpsert(FlowUpserts(flows, batch[..|batch| - 1]), batch[|batch| - 1])
  }

  // ---- What the statements leave, row by row and field by field ----

  /** A stored sample: its second has the new details and the amounts added up, and every other second
      keeps its row, but for those more than seven days older once the clean-up has run. */
  ghost predicate SampleTaken(was: map<int, SampleRow>, samples: map<int, SampleRow>, ts: int, amount: Amount,
                              protocols: Protocols, cleaned: bool)
  {
    && ts in samples && samples[ts].protocols == protocols
    && samples[ts].amount.packets == amount.packets + (if ts in was then was[ts].amount.packets else 0)
    && samples[ts].amount.bytes == amount.bytes + (if ts in was then was[ts].amount.bytes else 0)
    && (forall t | t in samples && t != ts :: t in was && samples[t] == was[t])
    && (forall t | t in was && t != ts :: t !in samples <==> cleaned && t < ts - 604800)
  }

  /** The records of a batch under one key, in order, and what they add up to. */
  function RecordsOf(batch: seq<FlowRecord>, key: string): seq<FlowRecord> {
    if batch == [] then []
    else
      var n := |batch| - 1;
      RecordsOf(batch[..n], key) + if batch[n].key == key then [batch[n]] else []
  }

  function PacketsIn(records: seq<FlowRecord>): nat {
    if records == [] then 0 else PacketsIn(records[..|records| - 1]) + records[|records| - 1].amount.packets
  }

  function BytesIn(records: seq<FlowRecord>): nat {
    if records == [] then 0 else BytesIn(records[..|records| - 1]) + records[|records| - 1].amount.bytes
  }

  /** A row after a batch: first seen is never overwritten, last seen is the latest write, amounts add up. */
  ghost predicate RowTaken(was: map<string, FlowRow>, records: seq<FlowRecord>, key: string, row: FlowRow) {
    && (key in was || records != [])
    && row.firstSeen == (if key in was then was[key].firstSeen else records[0].firstSeen)
    && row.lastSeen == (if records != [] then records[|records| - 1].timestamp else was[key].lastSeen)
    && row.amount.packets == (if key in was then was[key].amount.packets else 0) + PacketsIn(records)
    && row.amount.bytes == (if key in was then was[key].amount.bytes else 0) + BytesIn(records)
  }

  lemma RowAgain(was: map<string, FlowRow>, records: seq<FlowRecord>, r: FlowRecord, row: FlowRow)
    requires RowTaken(was, records, r.key, row)
    ensures RowTaken(was, records + [r], r.key, FlowRow(row.firstSeen, r.timestamp, row.amount.Plus(r.amount)))
  {
    assert (records + [r])[..|records|] == records;
  }

  lemma RowOpened(was: map<string, FlowRow>, r: FlowRecord)
    requires r.key !in was
    ensures RowTaken(was, [r], r.key, FlowRow(r.firstSeen, r.timestamp, r.amount))
  {
    assert [r][..0] == [];
  }

  /** Upserting a batch keeps every row, opens one for every new key, and makes of each what it should. */
  lemma {:induction false} BatchTaken(was: map<string, FlowRow>, batch: seq<FlowRecord>, k: string)
    ensures k in FlowUpserts(was, batch) <==> k in was || RecordsOf(batch, k) != []
    ensures k in FlowUpserts(was, batch) ==> RowTaken(was, RecordsOf(batch, k), k, FlowUpserts(was, batch)[k])
    decreases |batch|
  {
    if batch != [] {
      hide FlowUpserts, RecordsOf, RowTaken;
      var earlier, r := batch[..|batch| - 1], batch[|batch| - 1];
      BatchTaken(was, earlier, k);
      TakenNext(was, earlier, r, k);
      assert batch == earlier + [r];
    }
  }

  lemma TakenNext(was: map<string, FlowRow>, earlier: seq<FlowRecord>, r: FlowRecord, k: string)
    requires k in FlowUpserts(was, earlier) <==> k in was || RecordsOf(earlier, k) != []
    requires k in FlowUpserts(was, earlier) ==> RowTaken(was, RecordsOf(earlier, k), k, FlowUpserts(was, earlier)[k])
    ensures var batch := earlier + [r];
            && (k in FlowUpserts(was, batch) <==> k in was || RecordsOf(batch, k) != [])
            && (k in FlowUpserts(was, batch) ==> RowTaken(was, RecordsOf(batch, k), k, FlowUpserts(was, batch)[k]))
  {
    hide RowTaken;
    assert (earlier + [r])[..|earlier|] == earlier;
    var all := FlowUpserts(was, earlier);
    if r.key == k && k in all {
      RowAgain(was, RecordsOf(earlier, k), r, all[k]);
    } else if r.key == k {
      RowOpened(was, r);
      assert RecordsOf(earlier, k) + [r] == [r];
    } else {
      assert RecordsOf(earlier, k) + [] == RecordsOf(earlier, k);
    }
  }

  /** Where writing a sample may fail: before the upsert, or between it and the clean-up. */
  datatype SampleFault = NoFault | InsertFails | CleanupFails

  /** The rows a clean-up may delete: the expired ones, and of the others only what exceeds the
      limit, least recently seen first. */
  ghost predicate Retained(all: map<string, FlowRow>, flows: map<string, FlowRow>, cutoff: int) {
    && (forall k | k in flows :: k in all && flows[k] == all[k] && all[k].lastSeen >= cutoff)
    && |flows| <= 10000
    && (forall k | k in all && k !in flows && all[k].lastSeen >= cutoff ::
          |flows| == 10000 && forall j | j in flows :: all[k].lastSeen <= all[j].lastSeen)
  }

  class Store {
    var samples: map<int, SampleRow>
    var flows: map<string, FlowRow>

    constructor ()
      ensures samples == map[] && flows == map[]
    {
      samples, flows := map[], map[];
    }

    method Sample(ts: int, amount: Amount, protocols: Protocols, fault: SampleFault) returns (ok: bool)
      modifies this`samples
      ensures ok <==> fault == NoFault
      ensures fault == InsertFails ==> samples == old(samples)
      ensures fault != InsertFails ==> SampleTaken(old(samples), samples, ts, amount, protocols, fault == NoFault)
      ensures fault == CleanupFails ==> samples == SampleUpsert(old(samples), ts, amount, protocols)
      ensures fault == NoFault ==>
        samples == SampleUpsert(old(samples), ts, amount, protocols) -
                   (set t | t in SampleUpsert(old(samples), ts, amount, protocols) && t < ts - WEEK)
    {
      if fault == InsertFails { return false; }
      samples := SampleUpsert(samples, ts, amount, protocols);
      if fault == CleanupFails { return false; }
      samples := samples - (set t | t in samples && t < ts - WEEK);
      return true;
    }

    /** One transaction: a batch that fails at any of its statements changes nothing. */
    method RecordFlows(batch: seq<FlowRecord>, cutoff: int, failAt: Option<nat>) returns (ok: bool)
      modifies this`flows
      ensures ok <==> failAt.None? || failAt.value > |batch|
      ensures !ok ==> flows == old(flows)
      ensures ok ==> Retained(FlowUpserts(old(flows), batch), flows, cutoff)
      ensures ok ==> forall k | k in flows :: RowTaken(old(flows), RecordsOf(batch, k), k, flows[k])
    {
      hide RowTaken, RecordsOf;
      forall k
        ensures k in FlowUpserts(flows, batch) ==>
                  RowTaken(flows, RecordsOf(batch, k), k, FlowUpserts(flows, batch)[k])
      {
        BatchTaken(flows, batch, k);
      }
      var saved := flows;
      for i := 0 to |batch|
        invariant flows == FlowUpserts(old(flows), batch[..i])
        invariant failAt.Some? ==> failAt.value >= i
      {
        if failAt == Some(i) {
          flows := saved;   // ROLLBACK
          return false;
        }
        assert batch[..i + 1][..i] == batch[..i];
        flows := FlowUpsert(flows, batch[i]);
      }
      assert batch[..|batch|] == batch;
      if failAt == Some(|batch|) {
        flows := saved;
        return false;
      }
      flows := flows - (set k | k in flows && flows[k].lastSeen < cutoff);
      LimitFlows(FlowUpserts(old(flows), batch), cutoff);
      return true;
    }

    /** Keeps the most recently seen rows. */
    method LimitFlows(ghost all: map<string, FlowRow>, cutoff: int)
      requires flows == all - (set k | k in all && all[k].lastSeen < cutoff)
      modifies this`flows
      ensures Retained(all, flows, cutoff)
    {
      while |flows| > MAX_FLOWS
        invariant forall k | k in flows :: k in all && flows[k] == all[k] && all[k].lastSeen >= cutoff
        invariant forall k | k in all && k !in flows && all[k].lastSeen >= cutoff ::
          |flows| >= MAX_FLOWS && forall j | j in flows :: all[k].lastSeen <= all[j].lastSeen
        decreases |flows|
      {
        var oldest := Oldest();
        var kept := flows - {oldest};
        assert kept.Keys == flows.Keys - {oldest};
        flows := kept;
      }
    }

    method Oldest() returns (oldest: string)
      requires flows != map[]
      ensures oldest in flows && forall k | k in flows :: flows[oldest].lastSeen <= flows[k].lastSeen
    {
      oldest :| oldest in flows;
      var rest := flows.Keys - {oldest};
      while rest != {}
        invariant rest <= flows.Keys && oldest in flows
        invariant forall k | k in flows && k !in rest :: flows[oldest].lastSeen <= flows[k].lastSeen
      {
        var k :| k in rest;
        if flows[k].lastSeen < flows[oldest].lastSeen { oldest := k; }
        rest := rest - {k};
      }
    }
  }

  // ---- What the upserts add up to ----

  function AmountOf(flows: map<string, FlowRow>, key: string): Amount {
    if key in flows then flows[key].amount else ZERO
  }

  /** A stored sample adds its amount to the table; a clean-up takes out exactly the expired rows. */
  lemma SampleAdds(samples: map<int, SampleRow>, ts: int, amount: Amount, protocols: Protocols)
    ensures Amounts.Sum(SampleAmounts(SampleUpsert(samples, ts, amount, protocols))) ==
            Amounts.Sum(SampleAmounts(samples)).Plus(amount)
  {
    var m := SampleAmounts(samples);
    Amounts.SumUpsert(m, ts, amount);
    assert SampleAmounts(SampleUpsert(samples, ts, amount, protocols)) ==
           m[ts := (if ts in m then m[ts] else ZERO).Plus(amount)];
  }

  lemma CleanupRemoves(samples: map<int, SampleRow>, gone: set<int>)
    ensures Amounts.Sum(SampleAmounts(samples)) ==
            Amounts.Sum(SampleAmounts(samples - gone)).Plus(Amounts.Sum(Amounts.Taken(SampleAmounts(samples), gone)))
  {
    hide Amounts.Sum;
    Amounts.SumSplit(SampleAmounts(samples), gone);
    assert SampleAmounts(samples - gone) == SampleAmounts(samples) - gone;
  }
}
