// Aggregation under a cap: per-key totals for the first keys seen, a count for the rest.
module Tally {
  import opened Wrappers

  datatype Amount = Amount(packets: nat, bytes: nat) {
    function Plus(a: Amount): Amount { Amount(packets + a.packets, bytes + a.bytes) }
  }

  lemma PlusAssociates(a: Amount, b: Amount, c: Amount)
    ensures a.Plus(b).Plus(c) == a.Plus(b.Plus(c))
  {
  }

  const ZERO: Amount := Amount(0, 0)

  lemma PlusZero(a: Amount)
    ensures a.Plus(ZERO) == a && ZERO.Plus(a) == a
  {
  }

  /** One packet counted under a key. */
  datatype Item = Item(key: string, bytes: nat)

  /** The complete total of a key over a stream. */
  function Total(items: seq<Item>, key: string): Amount {
    if items == [] then ZERO
    else
      var n := |items| - 1;
      var before := Total(items[..n], key);
      if items[n].key == key then before.Plus(Amount(1, items[n].bytes)) else before
  }

  lemma TotalSnoc(items: seq<Item>, x: Item, key: string)
    ensures Total(items + [x], key) ==
            if x.key == key then Total(items, key).Plus(Amount(1, x.bytes)) else Total(items, key)
  {
    assert (items + [x])[..|items|] == items;
  }

  lemma {:induction false} TotalOfConcat(xs: seq<Item>, ys: seq<Item>, key: string)
    ensures Total(xs + ys, key) == Total(xs, key).Plus(Total(ys, key))
  {
    if ys == [] {
      assert xs + ys == xs;
    } else {
      hide Total, Amount.Plus;
      var earlier, y := ys[..|ys| - 1], ys[|ys| - 1];
      assert xs + ys == (xs + earlier) + [y] && ys == earlier + [y];
      TotalOfConcat(xs, earlier, key);
      TotalSnoc(xs + earlier, y, key);
      TotalSnoc(earlier, y, key);
      PlusAssociates(Total(xs, key), Total(earlier, key), Amount(1, y.bytes));
    }
  }

  /** The distinct keys of a stream in order of first appearance. */
  function Keys(items: seq<Item>): seq<string> {
    if items == [] then []
    else
      var n := |items| - 1;
      var before := Keys(items[..n]);
      if items[n].key in before then before else before + [items[n].key]
  }

  /** The keys a map of at most `cap` entries ends up with. */
  function KeptKeys(items: seq<Item>, cap: nat): seq<string> {
    if |Keys(items)| <= cap then Keys(items) else Keys(items)[..cap]
  }

  /** The aggregation as the runtime runs it: a known key is added to, a new one is admitted
      while there is room, and anything else only counted. */
  datatype Aggregate = Aggregate(kept: map<string, Amount>, omitted: nat)

  const EMPTY: Aggregate := Aggregate(map[], 0)

  function Admit(a: Aggregate, x: Item, cap: nat): Aggregate {
    if x.key in a.kept || |a.kept| < cap then
      var sum := if x.key in a.kept then a.kept[x.key] else ZERO;
      a.(kept := a.kept[x.key := sum.Plus(Amount(1, x.bytes))])
    else a.(omitted := a.omitted + 1)
  }

  function Capped(items: seq<Item>, cap: nat): Aggregate {
    if items == [] then EMPTY else Admit(Capped(items[..|items| - 1], cap), items[|items| - 1], cap)
  }

  lemma {:induction false} KeysFacts(items: seq<Item>)
    ensures Distinct(Keys(items))
    ensures forall k :: k in Keys(items) <==> exists i :: 0 <= i < |items| && items[i].key == k
  {
    if items != [] {
      var n := |items| - 1;
      KeysFacts(items[..n]);
      forall k
        ensures k in Keys(items) <==> exists i :: 0 <= i < |items| && items[i].key == k
      {
        if k in Keys(items[..n]) {
          var i :| 0 <= i < n && items[..n][i].key == k;
          assert items[i].key == k;
        }
        if i :| 0 <= i < |items| && items[i].key == k {
          if i < n { assert items[..n][i].key == k; }
        }
      }
    }
  }

  lemma {:induction false} DistinctCount(keys: seq<string>, s: set<string>)
    requires Distinct(keys) && forall k :: k in s <==> k in keys
    ensures |s| == |keys|
  {
    if keys == [] {
      assert s == {};
    } else {
      var n := |keys| - 1;
      assert keys[n] !in keys[..n];
      assert keys == keys[..n] + [keys[n]];
      DistinctCount(keys[..n], s - {keys[n]});
      assert s == (s - {keys[n]}) + {keys[n]};
    }
  }

  function SumOver(keys: seq<string>, m: map<string, Amount>): nat
    requires forall k | k in keys :: k in m
  {
    if keys == [] then 0 else SumOver(keys[..|keys| - 1], m) + m[keys[|keys| - 1]].packets
  }

  lemma {:induction false} SumOverUpdate(keys: seq<string>, m: map<string, Amount>, key: string, more: Amount)
    requires Distinct(keys) && (forall k | k in keys :: k in m) && key in m
    ensures SumOver(keys, m[key := m[key].Plus(more)]) ==
            SumOver(keys, m) + (if key in keys then more.packets else 0)
  {
    if keys != [] {
      var n := |keys| - 1;
      assert forall k | k in keys[..n] :: k in keys;
      SumOverUpdate(keys[..n], m, key, more);
      assert keys == keys[..n] + [keys[n]];
    }
  }

  lemma {:induction false} SumOverSame(keys: seq<string>, m: map<string, Amount>, m': map<string, Amount>)
    requires forall k | k in keys :: k in m && k in m' && m[k] == m'[k]
    ensures SumOver(keys, m) == SumOver(keys, m')
  {
    if keys != [] {
      SumOverSame(keys[..|keys| - 1], m, m');
    }
  }

  /** What being exact means for an aggregate of a stream. */
  ghost predicate Exact(items: seq<Item>, a: Aggregate, keys: seq<string>) {
    && |a.kept| == |keys|
    && (forall k :: k in a.kept <==> k in keys)
    && (forall k | k in keys :: k in a.kept && a.kept[k] == Total(items, k))
    && SumOver(keys, a.kept) + a.omitted == |items|
  }

  /** A capped map is exact on what it keeps: it holds precisely the first `cap` distinct keys,
      each with its complete total, and every packet is either in a kept total or counted as omitted. */
  lemma {:induction false} CappedIsExact(items: seq<Item>, cap: nat)
    ensures Exact(items, Capped(items, cap), KeptKeys(items, cap)) && |KeptKeys(items, cap)| <= cap
  {
    if items != [] {
      hide Exact, Admit, KeptKeys, Distinct, Keys;
      var n := |items| - 1;
      var x, earlier := items[n], items[..n];
      CappedIsExact(earlier, cap);
      KeptStep(earlier, x, cap);
      assert items == earlier + [x];
      var a, keys := Capped(earlier, cap), KeptKeys(earlier, cap);
      if x.key in keys {
        AdmitKnown(earlier, x, cap, a, keys);
      } else {
        AdmitOther(earlier, x, cap, a, keys);
      }
    }
  }

  lemma KeptStep(items: seq<Item>, x: Item, cap: nat)
    ensures var keys := KeptKeys(items, cap);
            && Distinct(keys)
            && (x.key !in keys && |keys| < cap ==> forall i | 0 <= i < |items| :: items[i].key != x.key)
            && KeptKeys(items + [x], cap) == if x.key in keys || |keys| >= cap then keys else keys + [x.key]
  {
    KeysFacts(items);
    assert (items + [x])[..|items|] == items;
    var keys := Keys(items);
    assert |keys| >= cap ==> (keys + [x.key])[..cap] == keys[..cap];
  }

  lemma AdmitKnown(items: seq<Item>, x: Item, cap: nat, a: Aggregate, keys: seq<string>)
    requires Exact(items, a, keys) && Distinct(keys) && x.key in keys
    ensures Exact(items + [x], Admit(a, x, cap), keys)
  {
    hide Total;
    var a' := Admit(a, x, cap);
    assert a'.kept.Keys == a.kept.Keys;
    SumOverUpdate(keys, a.kept, x.key, Amount(1, x.bytes));
    forall k | k in keys
      ensures a'.kept[k] == Total(items + [x], k)
    {
      TotalSnoc(items, x, k);
    }
  }

  /** A key seen for the first time is admitted exactly while there is room; a key turned away once
      stays away. */
  lemma AdmitOther(items: seq<Item>, x: Item, cap: nat, a: Aggregate, keys: seq<string>)
    requires Exact(items, a, keys) && x.key !in keys && |keys| <= cap
    requires |keys| < cap ==> forall i | 0 <= i < |items| :: items[i].key != x.key
    ensures Exact(items + [x], Admit(a, x, cap), if |keys| < cap then keys + [x.key] else keys)
  {
    hide Total;
    var a' := Admit(a, x, cap);
    forall k | k in keys
      ensures a.kept[k] == Total(items + [x], k)
    {
      TotalSnoc(items, x, k);
    }
    if |keys| < cap {
      var keys' := keys + [x.key];
      TotalAbsent(items, x.key);
      TotalSnoc(items, x, x.key);
      SumOverSame(keys, a.kept, a'.kept);
      assert keys'[..|keys|] == keys;
      assert a'.kept.Keys == a.kept.Keys + {x.key};
    }
  }

  lemma {:induction false} TotalAbsent(items: seq<Item>, key: string)
    requires forall i | 0 <= i < |items| :: items[i].key != key
    ensures Total(items, key) == ZERO
  {
    if items != [] {
      var n := |items| - 1;
      assert forall i | 0 <= i < n :: items[..n][i] == items[i];
      TotalAbsent(items[..n], key);
    }
  }

  /** A stream from which nothing was turned away has every key in the map. */
  lemma {:induction false} NoneOmitted(items: seq<Item>, cap: nat, key: string)
    requires Capped(items, cap).omitted == 0 && key !in Capped(items, cap).kept
    ensures Total(items, key) == ZERO
  {
    if items != [] {
      NoneOmitted(items[..|items| - 1], cap, key);
    }
  }

  // ---- Few keys ----

  function KeySet(items: seq<Item>): set<string> {
    set i | 0 <= i < |items| :: items[i].key
  }

  lemma KeySetConcat(a: seq<Item>, b: seq<Item>)
    ensures KeySet(a + b) == KeySet(a) + KeySet(b)
  {
    forall k
      ensures k in KeySet(a + b) <==> k in KeySet(a) + KeySet(b)
    {
      if k in KeySet(a) {
        var i :| 0 <= i < |a| && a[i].key == k;
        assert (a + b)[i].key == k;
      }
      if k in KeySet(b) {
        var i :| 0 <= i < |b| && b[i].key == k;
        assert (a + b)[|a| + i].key == k;
      }
    }
  }

  lemma FewerKeys(a: set<string>, b: set<string>)
    requires a <= b
    ensures |a| <= |b|
  {
    assert b == a + (b - a);
  }

  /** A stream of no more distinct keys than the cap is kept in full. */
  lemma {:induction false} RoomForAll(items: seq<Item>, cap: nat)
    requires |KeySet(items)| <= cap
    ensures Capped(items, cap).omitted == 0 && Capped(items, cap).kept.Keys == KeySet(items)
  {
    if items != [] {
      var earlier, x := items[..|items| - 1], items[|items| - 1];
      assert items == earlier + [x];
      KeySetConcat(earlier, [x]);
      assert KeySet([x]) == {x.key} by { assert [x][0].key == x.key; }
      FewerKeys(KeySet(earlier), KeySet(items));
      RoomForAll(earlier, cap);
      hide KeySet;
      var kept := Capped(earlier, cap).kept;
      assert |kept| == |kept.Keys|;
      if x.key !in kept {
        assert KeySet(items) == kept.Keys + {x.key};
      }
    }
  }
}
