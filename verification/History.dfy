// Bucketed history: samples of a range grouped by the start of their interval.
module History {
  import opened Wrappers
  import opened Tally
  import opened Store
  import Address
  import Bits

  const MAX_ROWS: nat := 1000

  datatype Row = Row(timestamp: int, amount: Amount, samples: nat, protocols: Protocols)

  /** SQL division truncates toward zero. */
  function Bucket(t: int, interval: int): int
    requires interval > 0
  {
    if t >= 0 then (t / interval) * interval else -((-t / interval) * interval)
  }

  function PlusProtocols(a: Protocols, b: Protocols): Protocols {
    Protocols(a.tcp + b.tcp, a.udp + b.udp, a.icmp + b.icmp, a.other + b.other)
  }

  function Merge(a: Row, b: Row): Row {
    Row(a.timestamp, a.amount.Plus(b.amount), a.samples + b.samples, PlusProtocols(a.protocols, b.protocols))
  }

  /** Appends to the last row if it has the same start, and opens a new row otherwise. */
  function Append(rows: seq<Row>, r: Row): seq<Row> {
    var n := |rows| - 1;
    if rows != [] && rows[n].timestamp == r.timestamp then rows[..n] + [Merge(rows[n], r)] else rows + [r]
  }

  function SampleAsRow(s: SampleRow, start: int): Row {
    Row(start, s.amount, 1, s.protocols)
  }

  /** Every group of the range, in order. */
  function Grouped(samples: map<int, SampleRow>, from: int, until: int, interval: int): seq<Row>
    requires interval > 0
    decreases until - from
  {
    if until <= from then []
    else
      var rows := Grouped(samples, from, until - 1, interval);
      if until - 1 in samples then Append(rows, SampleAsRow(samples[until - 1], Bucket(until - 1, interval))) else rows
  }

  // ---- Conservation ----

  /** A row of no samples. */
  function NoSamples(start: int): Row {
    Row(start, ZERO, 0, Protocols(0, 0, 0, 0))
  }

  // ---- What a row is to hold, number by number ----

  datatype Field = Packets | Bytes | Samples | TcpPackets | UdpPackets | IcmpPackets | OtherPackets

  /** What one sample contributes to each number of a row. */
  function ValueOf(s: SampleRow, f: Field): nat {
    match f
    case Packets => s.amount.packets
    case Bytes => s.amount.bytes
    case Samples => 1
    case TcpPackets => s.protocols.tcp
    case UdpPackets => s.protocols.udp
    case IcmpPackets => s.protocols.icmp
    case OtherPackets => s.protocols.other
  }

  function RowValue(r: Row, f: Field): nat {
    match f
    case Packets => r.amount.packets
    case Bytes => r.amount.bytes
    case Samples => r.samples
    case TcpPackets => r.protocols.tcp
    case UdpPackets => r.protocols.udp
    case IcmpPackets => r.protocols.icmp
    case OtherPackets => r.protocols.other
  }

  /** Whether a second belongs to the interval starting at `start`: the one up to it from a negative
      second, the one from it onwards otherwise. */
  predicate InInterval(t: int, start: int, interval: int)
    requires interval > 0
  {
    start % interval == 0 && if t >= 0 then start <= t < start + interval else start - interval < t <= start
  }

  /** The sum of one number over the samples of the range that belong to an interval. */
  function SumOf(samples: map<int, SampleRow>, from: int, until: int, interval: int, start: int, f: Field): nat
    requires interval > 0
    decreases until - from
  {
    if until <= from then 0
    else
      SumOf(samples, from, until - 1, interval, start, f) +
      if until - 1 in samples && InInterval(until - 1, start, interval) then ValueOf(samples[until - 1], f) else 0
  }

  /** The sum of one number over all samples of the range. */
  function RangeSum(samples: map<int, SampleRow>, from: int, until: int, f: Field): nat
    decreases until - from
  {
    if until <= from then 0
    else RangeSum(samples, from, until - 1, f) + if until - 1 in samples then ValueOf(samples[until - 1], f) else 0
  }

  function RowsSum(rows: seq<Row>, f: Field): nat {
    if rows == [] then 0 else RowsSum(rows[..|rows| - 1], f) + RowValue(rows[|rows| - 1], f)
  }

  /** Every number of a row is the sum of that number over the samples of the row's interval. */
  ghost predicate RowHolds(r: Row, samples: map<int, SampleRow>, from: int, until: int, interval: int)
    requires interval > 0
  {
    && r.timestamp % interval == 0 && r.samples >= 1
    && forall f :: RowValue(r, f) == SumOf(samples, from, until, interval, r.timestamp, f)
  }

  /** The interval starting at `start` ends before a second. */
  predicate EndsBefore(start: int, t: int, interval: int) {
    if t >= 0 then start + interval <= t else start < t
  }

  /** Rows in order, each holding its interval's sums; a sample is left without a row only by those of
      earlier intervals filling the answer. */
  ghost predicate Answers(rows: seq<Row>, samples: map<int, SampleRow>, from: int, until: int, interval: int)
    requires interval > 0
  {
    && |rows| <= 1000 && Ascending(rows)
    && (forall i | 0 <= i < |rows| :: RowHolds(rows[i], samples, from, until, interval))
    && (forall t | from <= t < until && t in samples ::
          || (exists i :: 0 <= i < |rows| && InInterval(t, rows[i].timestamp, interval))
          || (|rows| == 1000 && forall i | 0 <= i < |rows| :: EndsBefore(rows[i].timestamp, t, interval)))
  }

  /** The samples of the range whose interval starts at `start`. */
  function BucketTotal(samples: map<int, SampleRow>, from: int, until: int, interval: int, start: int): Row
    requires interval > 0
    decreases until - from
  {
    if until <= from then NoSamples(start)
    else
      var before := BucketTotal(samples, from, until - 1, interval, start);
      if until - 1 in samples && Bucket(until - 1, interval) == start then
        Merge(before, SampleAsRow(samples[until - 1], start))
      else before
  }

  lemma AppendSum(rows: seq<Row>, r: Row, f: Field)
    ensures RowsSum(Append(rows, r), f) == RowsSum(rows, f) + RowValue(r, f)
  {
    var n := |rows| - 1;
    if rows != [] && rows[n].timestamp == r.timestamp {
      assert (rows[..n] + [Merge(rows[n], r)])[..n] == rows[..n];
    } else {
      assert (rows + [r])[..|rows|] == rows;
    }
  }

  /** The rows together hold every sample of the range, once, with each of its numbers. */
  lemma {:induction false} HistoryConserves(samples: map<int, SampleRow>, from: int, until: int, interval: int, f: Field)
    requires interval > 0
    ensures RowsSum(Grouped(samples, from, until, interval), f) == RangeSum(samples, from, until, f)
    decreases until - from
  {
    if from < until {
      hide Grouped, RangeSum, RowsSum, Bucket;
      HistoryConserves(samples, from, until - 1, interval, f);
      GroupedNext(samples, from, until, interval, f);
    }
  }

  lemma GroupedNext(samples: map<int, SampleRow>, from: int, until: int, interval: int, f: Field)
    requires interval > 0 && from < until
    ensures var more := if until - 1 in samples then ValueOf(samples[until - 1], f) else 0;
            && RowsSum(Grouped(samples, from, until, interval), f) == RowsSum(Grouped(samples, from, until - 1, interval), f) + more
            && RangeSum(samples, from, until, f) == RangeSum(samples, from, until - 1, f) + more
  {
    hide Bucket, Append, RowsSum, RowValue, ValueOf, SampleAsRow;
    if until - 1 in samples {
      var r := SampleAsRow(samples[until - 1], Bucket(until - 1, interval));
      SampleValue(samples[until - 1], Bucket(until - 1, interval), f);
      AppendSum(Grouped(samples, from, until - 1, interval), r, f);
    }
  }

  lemma SampleValue(s: SampleRow, start: int, f: Field)
    ensures RowValue(SampleAsRow(s, start), f) == ValueOf(s, f)
  {
  }

  /** A sample counts for the row that starts where truncation puts it. */
  lemma BucketIsInterval(t: int, start: int, interval: int)
    requires interval > 0
    ensures Bucket(t, interval) == start <==> InInterval(t, start, interval)
  {
    BucketMultiple(t, interval);
    BucketNear(t, interval);
    hide Bucket;
    if InInterval(t, start, interval) && Bucket(t, interval) != start {
      if start < Bucket(t, interval) {
        NextMultiple(start, Bucket(t, interval), interval);
      } else {
        NextMultiple(Bucket(t, interval), start, interval);
      }
    }
  }

  lemma {:induction false} TotalIsSums(samples: map<int, SampleRow>, from: int, until: int, interval: int, start: int)
    requires interval > 0
    ensures forall f :: RowValue(BucketTotal(samples, from, until, interval, start), f) ==
                        SumOf(samples, from, until, interval, start, f)
    decreases until - from
  {
    if from < until {
      hide Bucket, InInterval;
      TotalIsSums(samples, from, until - 1, interval, start);
      BucketIsInterval(until - 1, start, interval);
    }
  }

  lemma {:induction false} RowsNotEmpty(samples: map<int, SampleRow>, from: int, until: int, interval: int)
    requires interval > 0
    ensures forall i | 0 <= i < |Grouped(samples, from, until, interval)| :: Grouped(samples, from, until, interval)[i].samples >= 1
    decreases until - from
  {
    if from < until { RowsNotEmpty(samples, from, until - 1, interval); }
  }

  // ---- Order, content and number of rows ----

  lemma BucketMonotone(t: int, interval: int)
    requires interval > 0
    ensures Bucket(t, interval) <= Bucket(t + 1, interval)
  {
    if t >= 0 {
      QuotientMonotone(t, t + 1, interval);
    } else if t + 1 < 0 {
      QuotientMonotone(-t - 1, -t, interval);
    } else {
      QuotientMonotone(0, 1, interval);
    }
  }

  lemma QuotientMonotone(a: int, b: int, d: int)
    requires 0 <= a <= b && d > 0
    ensures 0 <= (a / d) * d <= (b / d) * d
  {
    var p, q := a / d, b / d;
    Quotient(a, d);
    Quotient(b, d);
    Ordered(p, q, a, b, d);
  }

  lemma Quotient(a: int, d: int)
    requires a >= 0 && d > 0
    ensures (a / d) * d <= a < (a / d) * d + d && a / d >= 0
  {
  }

  lemma Ordered(p: int, q: int, a: int, b: int, d: int)
    requires 0 <= a <= b && d > 0 && p >= 0
    requires p * d <= a < p * d + d && q * d <= b < q * d + d
    ensures 0 <= p * d <= q * d
  {
    Address.Multiples(q + 1, p, d);
    Address.Multiples(p, q, d);
    assert (q + 1) * d == q * d + d;
  }

  ghost predicate Ascending(rows: seq<Row>) {
    forall i, j | 0 <= i < j < |rows| :: rows[i].timestamp < rows[j].timestamp
  }

  ghost predicate HasRow(rows: seq<Row>, start: int) {
    exists i :: 0 <= i < |rows| && rows[i].timestamp == start
  }

  /** Rows ascend, each holds exactly the samples of its interval, and no sample is without a row. */
  ghost predicate RowsAre(rows: seq<Row>, samples: map<int, SampleRow>, from: int, until: int, interval: int)
    requires interval > 0
  {
    && Ascending(rows)
    && (rows != [] ==> from < until && Bucket(from, interval) <= rows[0].timestamp)
    && (rows != [] ==> rows[|rows| - 1].timestamp <= Bucket(until - 1, interval))
    && (forall i | 0 <= i < |rows| :: rows[i] == BucketTotal(samples, from, until, interval, rows[i].timestamp))
    && (forall i | 0 <= i < |rows| :: rows[i].timestamp % interval == 0)
    && (forall t | from <= t < until && t in samples :: HasRow(rows, Bucket(t, interval)))
    && (forall start :: !HasRow(rows, start) ==> BucketTotal(samples, from, until, interval, start) == NoSamples(start))
  }

  lemma {:induction false} RowsBuilt(samples: map<int, SampleRow>, from: int, until: int, interval: int)
    requires interval > 0
    ensures RowsAre(Grouped(samples, from, until, interval), samples, from, until, interval)
    decreases until - from
  {
    if from < until {
      hide RowsAre;
      RowsBuilt(samples, from, until - 1, interval);
      var rows := Grouped(samples, from, until - 1, interval);
      if until - 1 in samples {
        AppendKeepsRows(rows, samples, from, until, interval);
      } else {
        SkipKeepsRows(rows, samples, from, until, interval);
      }
    }
  }

  /** There is a row exactly for each interval with a sample, in order, and each number of it is a sum
      over that interval's samples. */
  ghost predicate Complete(rows: seq<Row>, samples: map<int, SampleRow>, from: int, until: int, interval: int)
    requires interval > 0
  {
    && Ascending(rows)
    && (forall i | 0 <= i < |rows| :: RowHolds(rows[i], samples, from, until, interval))
    && (forall t | from <= t < until && t in samples ::
          exists i :: 0 <= i < |rows| && InInterval(t, rows[i].timestamp, interval))
  }

  lemma RowsAreBuckets(samples: map<int, SampleRow>, from: int, until: int, interval: int)
    requires interval > 0
    ensures Complete(Grouped(samples, from, until, interval), samples, from, until, interval)
  {
    var rows := Grouped(samples, from, until, interval);
    RowsBuilt(samples, from, until, interval);
    RowsNotEmpty(samples, from, until, interval);
    hide Bucket, SumOf, Grouped, InInterval;
    forall i | 0 <= i < |rows|
      ensures RowHolds(rows[i], samples, from, until, interval)
    {
      TotalIsSums(samples, from, until, interval, rows[i].timestamp);
    }
    forall t | from <= t < until && t in samples
      ensures exists i :: 0 <= i < |rows| && InInterval(t, rows[i].timestamp, interval)
    {
      var i :| 0 <= i < |rows| && rows[i].timestamp == Bucket(t, interval);
      BucketIsInterval(t, rows[i].timestamp, interval);
    }
  }

  /** The first 1000 of the rows answer the query. */
  lemma FirstRowsAnswer(all: seq<Row>, samples: map<int, SampleRow>, from: int, until: int, interval: int)
    requires interval > 0 && Complete(all, samples, from, until, interval)
    ensures Answers(if |all| <= MAX_ROWS then all else all[..MAX_ROWS], samples, from, until, interval)
  {
    hide InInterval, EndsBefore, RowHolds;
    if |all| > MAX_ROWS {
      var rows := all[..MAX_ROWS];
      forall t | from <= t < until && t in samples
        ensures || (exists i :: 0 <= i < |rows| && InInterval(t, rows[i].timestamp, interval))
                || (|rows| == 1000 && forall i | 0 <= i < |rows| :: EndsBefore(rows[i].timestamp, t, interval))
      {
        var k :| 0 <= k < |all| && InInterval(t, all[k].timestamp, interval);
        if k < MAX_ROWS {
          assert InInterval(t, rows[k].timestamp, interval);
        } else {
          forall i | 0 <= i < |rows|
            ensures EndsBefore(rows[i].timestamp, t, interval)
          {
            EarlierRow(all[i], all[k], samples, from, until, t, interval);
          }
        }
      }
    }
  }

  lemma EarlierRow(earlier: Row, row: Row, samples: map<int, SampleRow>, from: int, until: int, t: int, interval: int)
    requires interval > 0 && earlier.timestamp < row.timestamp && InInterval(t, row.timestamp, interval)
    requires RowHolds(earlier, samples, from, until, interval)
    ensures EndsBefore(earlier.timestamp, t, interval)
  {
    hide SumOf;
    NextMultiple(earlier.timestamp, row.timestamp, interval);
  }

  lemma SkipKeepsRows(rows: seq<Row>, samples: map<int, SampleRow>, from: int, until: int, interval: int)
    requires interval > 0 && from < until && until - 1 !in samples
    requires RowsAre(rows, samples, from, until - 1, interval)
    ensures RowsAre(rows, samples, from, until, interval)
  {
    hide Bucket;
    if rows != [] { BucketMonotone(until - 2, interval); }
  }

  lemma AppendKeepsRows(rows: seq<Row>, samples: map<int, SampleRow>, from: int, until: int, interval: int)
    requires interval > 0 && from < until && until - 1 in samples
    requires RowsAre(rows, samples, from, until - 1, interval)
    ensures RowsAre(Append(rows, SampleAsRow(samples[until - 1], Bucket(until - 1, interval))), samples, from, until, interval)
  {
    var n := |rows| - 1;
    var start := Bucket(until - 1, interval);
    BucketMultiple(until - 1, interval);
    hide Bucket;
    BucketsMonotone(from, until - 1, interval);
    if rows != [] {
      BucketMonotone(until - 2, interval);
      if rows[n].timestamp == start {
        MergeKeepsRows(rows, samples, from, until, interval);
      } else {
        OpenKeepsRows(rows, samples, from, until, interval);
      }
    } else {
      OpenKeepsRows(rows, samples, from, until, interval);
    }
  }

  lemma MergeKeepsRows(rows: seq<Row>, samples: map<int, SampleRow>, from: int, until: int, interval: int)
    requires interval > 0 && from < until && until - 1 in samples && rows != []
    requires RowsAre(rows, samples, from, until - 1, interval)
    requires rows[|rows| - 1].timestamp == Bucket(until - 1, interval)
    ensures RowsAre(Append(rows, SampleAsRow(samples[until - 1], Bucket(until - 1, interval))), samples, from, until, interval)
  {
    hide Bucket;
    var n := |rows| - 1;
    var r := SampleAsRow(samples[until - 1], Bucket(until - 1, interval));
    var rows' := Append(rows, r);
    assert |rows'| == |rows| && forall i | 0 <= i < |rows| :: rows'[i].timestamp == rows[i].timestamp;
    assert forall start :: HasRow(rows, start) <==> HasRow(rows', start);
    assert rows'[n] == Merge(rows[n], r);
    assert HasRow(rows', rows'[n].timestamp);
  }

  lemma OpenKeepsRows(rows: seq<Row>, samples: map<int, SampleRow>, from: int, until: int, interval: int)
    requires interval > 0 && from < until && until - 1 in samples
    requires RowsAre(rows, samples, from, until - 1, interval)
    requires rows != [] ==> rows[|rows| - 1].timestamp < Bucket(until - 1, interval)
    requires Bucket(from, interval) <= Bucket(until - 1, interval) && Bucket(until - 1, interval) % interval == 0
    ensures RowsAre(Append(rows, SampleAsRow(samples[until - 1], Bucket(until - 1, interval))), samples, from, until, interval)
  {
    hide Bucket;
    var r := SampleAsRow(samples[until - 1], Bucket(until - 1, interval));
    var rows' := Append(rows, r);
    assert rows' == rows + [r];
    assert !HasRow(rows, r.timestamp);
    assert forall start :: HasRow(rows', start) <==> HasRow(rows, start) || start == r.timestamp by {
      forall start
        ensures HasRow(rows', start) <==> HasRow(rows, start) || start == r.timestamp
      {
        if HasRow(rows, start) {
          var i :| 0 <= i < |rows| && rows[i].timestamp == start;
          assert rows'[i].timestamp == start;
        }
        assert rows'[|rows|].timestamp == r.timestamp;
      }
    }
    assert Merge(NoSamples(r.timestamp), r) == r;
  }

  lemma BucketMultiple(t: int, interval: int)
    requires interval > 0
    ensures Bucket(t, interval) % interval == 0
  {
    var q := BucketIs(t, interval);
    MultipleOf(q, interval);
  }

  lemma BucketIs(t: int, interval: int) returns (q: int)
    requires interval > 0
    ensures Bucket(t, interval) == q * interval
  {
    if t >= 0 {
      q := t / interval;
    } else {
      q := -(-t / interval);
      Negated(-t / interval, interval);
    }
  }

  lemma Negated(q: int, d: int)
    ensures -(q * d) == (-q) * d
  {
  }

  lemma MultipleOf(q: int, d: int)
    requires d > 0
    ensures (q * d) % d == 0
  {
    if q >= 0 {
      Address.Remainder(q * d, d);
      Bits.ModuloUnique(q * d, d, q, 0);
    } else {
      var r, k := (q * d) % d, q - (q * d) / d;
      assert k * d == r;
      Address.Multiples(1, k, d);
      Address.Multiples(k, 0, d);
    }
  }

  lemma {:induction false} BucketsMonotone(s: int, t: int, interval: int)
    requires interval > 0 && s <= t
    ensures Bucket(s, interval) <= Bucket(t, interval)
    decreases t - s
  {
    if s < t {
      BucketMonotone(t - 1, interval);
      BucketsMonotone(s, t - 1, interval);
    }
  }

  // ---- The query ----

  method Query(samples: map<int, SampleRow>, from: int, until: int, interval: int) returns (r: Result<seq<Row>>)
    ensures r.Err? <==> interval !in {60, 300, 3600} || until <= from || until - from > 604800
    ensures r.Ok? ==>
      var all := Grouped(samples, from, until, interval);
      r.value == if |all| <= MAX_ROWS then all else all[..MAX_ROWS]
    ensures r.Ok? ==> Answers(r.value, samples, from, until, interval)
  {
    hide Answers, Complete;
    if (interval != 60 && interval != 300 && interval != 3600) || until <= from || until - from > WEEK {
      return Err("range");
    }
    var rows: seq<Row> := [];
    var t := from;
    while t < until
      invariant from <= t <= until && rows == Grouped(samples, from, t, interval)
    {
      if t in samples {
        rows := Append(rows, SampleAsRow(samples[t], Bucket(t, interval)));
      }
      t := t + 1;
    }
    RowsAreBuckets(samples, from, until, interval);
    FirstRowsAnswer(rows, samples, from, until, interval);
    return Ok(if |rows| <= MAX_ROWS then rows else rows[..MAX_ROWS]);
  }

  // ---- The row limit ----

  lemma {:induction false} AscendingMultiples(rows: seq<Row>, interval: int)
    requires interval > 0 && rows != [] && Ascending(rows)
    requires forall i | 0 <= i < |rows| :: rows[i].timestamp % interval == 0
    ensures rows[|rows| - 1].timestamp - rows[0].timestamp >= (|rows| - 1) * interval
  {
    if |rows| > 1 {
      var n := |rows| - 1;
      AscendingMultiples(rows[..n], interval);
      NextMultiple(rows[n - 1].timestamp, rows[n].timestamp, interval);
      assert (n - 1) * interval + interval == n * interval;
    }
  }

  lemma NextMultiple(a: int, b: int, d: int)
    requires d > 0 && a < b && a % d == 0 && b % d == 0
    ensures a + d <= b
  {
    var p, q := a / d, b / d;
    assert a == p * d && b == q * d;
    Address.Multiples(q, p, d);
    Address.Multiples(p + 1, q, d);
    assert (p + 1) * d == p * d + d;
  }

  lemma BucketSpan(from: int, until: int, interval: int)
    requires interval > 0 && from < until
    ensures Bucket(until - 1, interval) - Bucket(from, interval) < until - from + interval - 1
  {
    BucketNear(from, interval);
    BucketNear(until - 1, interval);
  }

  lemma BucketNear(t: int, interval: int)
    requires interval > 0
    ensures t >= 0 ==> t - interval < Bucket(t, interval) <= t
    ensures t < 0 ==> t <= Bucket(t, interval) < t + interval
  {
    Quotient(if t >= 0 then t else -t, interval);
  }

  /** A range of up to 999 intervals needs no more than 1000 rows, so nothing is cut off: the
      answer holds every sample of the range. */
  lemma HistoryIsComplete(samples: map<int, SampleRow>, from: int, until: int, interval: int)
    requires interval > 0 && until - from <= 999 * interval
    ensures |Grouped(samples, from, until, interval)| <= 1000
  {
    var rows := Grouped(samples, from, until, interval);
    RowsBuilt(samples, from, until, interval);
    if rows != [] {
      AscendingMultiples(rows, interval);
      BucketSpan(from, until, interval);
      Address.Multiples(1000, |rows| - 1, interval);
    }
  }

  // ---- Nesting ----

  /** Rows of a fine interval grouped again by a coarse one. */
  function Regrouped(rows: seq<Row>, interval: int): seq<Row>
    requires interval > 0
  {
    if rows == [] then []
    else
      var n := |rows| - 1;
      Append(Regrouped(rows[..n], interval), rows[n].(timestamp := Bucket(rows[n].timestamp, interval)))
  }

  /** A coarse interval starts where the fine interval containing it does. */
  lemma BucketsNest(t: int, fine: int, times: int)
    requires fine > 0 && times > 0
    ensures fine * times > 0 && Bucket(Bucket(t, fine), fine * times) == Bucket(t, fine * times)
  {
    Address.Multiples(1, times, fine);
    if t >= 0 {
      QuotientsNest(t, fine, times);
    } else {
      QuotientsNest(-t, fine, times);
    }
  }

  lemma QuotientsNest(t: int, fine: int, times: int)
    requires t >= 0 && fine > 0 && times > 0 && fine * times > 0
    ensures (t / fine) * fine >= 0 && (t / fine) * fine / (fine * times) == t / (fine * times)
  {
    var d := fine * times;
    var q, p := t / d, t / fine;
    Quotient(t, d);
    Quotient(t, fine);
    Reassociate(q, fine, times);
    MultipleBelow(q * times, p, fine, t);
    SameQuotient(p * fine, d, q);
  }

  lemma Reassociate(a: int, b: int, c: int)
    ensures a * (b * c) == (a * c) * b
  {
  }

  /** A multiple that does not exceed `t` does not exceed the last multiple up to `t` either. */
  lemma MultipleBelow(m: int, p: int, d: int, t: int)
    requires d > 0 && m * d <= t < p * d + d
    ensures m * d <= p * d
  {
    Address.Multiples(p + 1, m, d);
    Address.Multiples(m, p, d);
    assert (p + 1) * d == p * d + d;
  }

  lemma SameQuotient(x: int, d: int, q: int)
    requires d > 0 && x >= 0 && q * d <= x < q * d + d
    ensures x / d == q
  {
    var k := x / d;
    Quotient(x, d);
    Address.Multiples(k + 1, q, d);
    Address.Multiples(q + 1, k, d);
    assert (k + 1) * d == k * d + d && (q + 1) * d == q * d + d;
  }

  lemma MergeAssociates(a: Row, b: Row, c: Row)
    ensures Merge(Merge(a, b), c) == Merge(a, Merge(b, c))
  {
  }

  lemma RegroupedSnoc(rows: seq<Row>, r: Row, interval: int)
    requires interval > 0
    ensures Regrouped(rows + [r], interval) ==
            Append(Regrouped(rows, interval), r.(timestamp := Bucket(r.timestamp, interval)))
  {
    assert (rows + [r])[..|rows|] == rows;
  }

  /** Regrouping after appending to the fine rows is appending to the coarse ones. */
  lemma RegroupAppend(rows: seq<Row>, r: Row, interval: int)
    requires interval > 0
    ensures Regrouped(Append(rows, r), interval) ==
            Append(Regrouped(rows, interval), r.(timestamp := Bucket(r.timestamp, interval)))
  {
    hide Bucket;
    var n := |rows| - 1;
    if rows != [] && rows[n].timestamp == r.timestamp {
      var last, coarse := rows[n], Regrouped(rows[..n], interval);
      var start := Bucket(r.timestamp, interval);
      RegroupedSnoc(rows[..n], Merge(last, r), interval);
      AppendTwice(coarse, last.(timestamp := start), r.(timestamp := start));
    } else {
      RegroupedSnoc(rows, r, interval);
    }
  }

  lemma AppendTwice(rows: seq<Row>, a: Row, b: Row)
    requires a.timestamp == b.timestamp
    ensures Append(Append(rows, a), b) == Append(rows, Merge(a, b))
  {
    var n := |rows| - 1;
    if rows != [] && rows[n].timestamp == a.timestamp {
      MergeAssociates(rows[n], a, b);
      assert (rows[..n] + [Merge(rows[n], a)])[..n] == rows[..n];
    } else {
      assert (rows + [a])[..|rows|] == rows;
    }
  }

  /** Grouping the rows of a fine interval again gives exactly the rows of the coarse one, for
      ranges that start and end anywhere. */
  lemma {:induction false} HistoryNests(samples: map<int, SampleRow>, from: int, until: int, fine: int, times: int)
    requires fine > 0 && times > 0
    ensures fine * times > 0
    ensures Regrouped(Grouped(samples, from, until, fine), fine * times) == Grouped(samples, from, until, fine * times)
    decreases until - from
  {
    Address.Multiples(1, times, fine);
    if from < until {
      HistoryNests(samples, from, until - 1, fine, times);
      if until - 1 in samples {
        var r := SampleAsRow(samples[until - 1], Bucket(until - 1, fine));
        BucketsNest(until - 1, fine, times);
        RegroupAppend(Grouped(samples, from, until - 1, fine), r, fine * times);
      }
    }
  }

  /** The minute rows of an answer that was not cut off regroup into the five-minute and hourly answers. */
  lemma MinutesRegroup(samples: map<int, SampleRow>, from: int, until: int)
    ensures Regrouped(Grouped(samples, from, until, 60), 300) == Grouped(samples, from, until, 300)
    ensures Regrouped(Grouped(samples, from, until, 60), 3600) == Grouped(samples, from, until, 3600)
  {
    HistoryNests(samples, from, until, 60, 5);
    HistoryNests(samples, from, until, 60, 60);
  }
}
