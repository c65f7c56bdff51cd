// Sums of amounts over the rows of a table.
module Amounts {
  import opened Tally

  /** The sum over a table, whatever order its rows are taken in. */
  ghost function Sum<K(!new)>(m: map<K, Amount>): Amount
    decreases |m|
  {
    if m == map[] then ZERO
    else
      var k :| k in m;
      Smaller(m, k);
      m[k].Plus(Sum(m - {k}))
  }

  lemma Smaller<K>(m: map<K, Amount>, k: K)
    requires k in m
    ensures |m - {k}| < |m|
  {
    assert (m - {k}).Keys == m.Keys - {k};
  }

  /** Any row may be taken out first. */
  lemma {:induction false} SumWithout<K(!new)>(m: map<K, Amount>, k: K)
    requires k in m
    ensures Sum(m) == m[k].Plus(Sum(m - {k}))
    decreases |m|
  {
    var j :| j in m && Sum(m) == m[j].Plus(Sum(m - {j}));
    if j == k {
      assert m - {j} == m - {k};
    } else {
      var mj, mk := m - {j}, m - {k};
      Smaller(m, j);
      SumWithout(mj, k);
      Smaller(m, k);
      SumWithout(mk, j);
      assert mj[k] == m[k] && mk[j] == m[j];
      assert mj - {k} == mk - {j};
      assert Sum(mj) == m[k].Plus(Sum(mj - {k}));
      assert Sum(mk) == m[j].Plus(Sum(mj - {k}));
      assert Sum(m) == m[j].Plus(m[k].Plus(Sum(mj - {k})));
      assert m[k].Plus(Sum(mk)) == m[k].Plus(m[j].Plus(Sum(mj - {k})));
    }
  }

  /** Adding to a row, or to no row, adds to the sum. */
  lemma SumUpsert<K(!new)>(m: map<K, Amount>, k: K, more: Amount)
    ensures Sum(m[k := (if k in m then m[k] else ZERO).Plus(more)]) == Sum(m).Plus(more)
  {
    var m' := m[k := (if k in m then m[k] else ZERO).Plus(more)];
    SumWithout(m', k);
    if k in m {
      SumWithout(m, k);
      assert m' - {k} == m - {k};
    } else {
      assert m' - {k} == m;
    }
  }

  /** What is removed and what stays add up to what was there. */
  lemma {:induction false} SumSplit<K(!new)>(m: map<K, Amount>, gone: set<K>)
    ensures Sum(m) == Sum(m - gone).Plus(Sum(Taken(m, gone)))
    decreases |m|
  {
    if m.Keys == {} {
      SplitEmpty(m, gone);
    } else {
      hide Sum, Taken;
      var k :| k in m;
      Smaller(m, k);
      SumSplit(m - {k}, gone);
      if k in gone { SplitGone(m, gone, k); } else { SplitStays(m, gone, k); }
    }
  }

  lemma SplitEmpty<K(!new)>(m: map<K, Amount>, gone: set<K>)
    requires m.Keys == {}
    ensures Sum(m) == Sum(m - gone).Plus(Sum(Taken(m, gone)))
  {
    hide Sum;
    forall k: K
      ensures k !in (m - gone).Keys && k !in Taken(m, gone).Keys
    {
      assert k !in m.Keys;
    }
    SumEmpty(m);
    SumEmpty(m - gone);
    SumEmpty(Taken(m, gone));
  }

  lemma SumEmpty<K(!new)>(m: map<K, Amount>)
    requires m.Keys == {}
    ensures Sum(m) == ZERO
  {
    assert m == map[];
  }

  lemma SplitGone<K(!new)>(m: map<K, Amount>, gone: set<K>, k: K)
    requires k in m && k in gone
    requires Sum(m - {k}) == Sum((m - {k}) - gone).Plus(Sum(Taken(m - {k}, gone)))
    ensures Sum(m) == Sum(m - gone).Plus(Sum(Taken(m, gone)))
  {
    hide Sum;
    SumWithout(m, k);
    SumWithout(Taken(m, gone), k);
    assert Taken(m, gone) - {k} == Taken(m - {k}, gone);
    assert (m - {k}) - gone == m - gone;
  }

  lemma SplitStays<K(!new)>(m: map<K, Amount>, gone: set<K>, k: K)
    requires k in m && k !in gone
    requires Sum(m - {k}) == Sum((m - {k}) - gone).Plus(Sum(Taken(m - {k}, gone)))
    ensures Sum(m) == Sum(m - gone).Plus(Sum(Taken(m, gone)))
  {
    hide Sum;
    SumWithout(m, k);
    SumWithout(m - gone, k);
    assert (m - gone) - {k} == (m - {k}) - gone;
    assert Taken(m, gone) == Taken(m - {k}, gone);
  }

  function Taken<K>(m: map<K, Amount>, gone: set<K>): map<K, Amount> {
    map k | k in m && k in gone :: m[k]
  }
}
