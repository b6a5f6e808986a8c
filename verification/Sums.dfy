/** Sums of multisets over the range of a finite map, and duplicate-free lists.
    The handle invariants count, for one address, every list that names it;
    these are the facts that let a list be changed under such a count. */
module Sums {

  /** Every element of every multiset in the range of `m`, with multiplicity. */
  ghost function Total<K(!new), V>(m: map<K, multiset<V>>): multiset<V>
    decreases |m|
  {
    if m == map[] then multiset{}
    else
      var k :| k in m;
      m[k] + Total(m - {k})
  }

  /** The sum does not depend on which key is split off. */
  lemma {:induction false} TotalSplit<K(!new), V>(m: map<K, multiset<V>>, k: K)
    requires k in m
    ensures Total(m) == m[k] + Total(m - {k})
    decreases |m|
  {
    var c :| c in m && Total(m) == m[c] + Total(m - {c});
    if c != k {
      TotalSplit(m - {c}, k);
      TotalSplit(m - {k}, c);
      assert m - {c} - {k} == m - {k} - {c};
    }
  }

  lemma TotalUpdate<K(!new), V>(m: map<K, multiset<V>>, k: K, v: multiset<V>)
    ensures k in m ==> Total(m[k := v]) + m[k] == Total(m) + v
    ensures k !in m ==> Total(m[k := v]) == Total(m) + v
  {
    var n := m[k := v];
    TotalSplit(n, k);
    if k in m {
      TotalSplit(m, k);
      assert n - {k} == m - {k};
    } else {
      assert n - {k} == m;
    }
  }

  // ---- a sum over the objects of a heap -------------------------------------

  ghost function Image<K, O, V>(h: map<K, O>, f: O -> multiset<V>): map<K, multiset<V>> {
    map k | k in h :: f(h[k])
  }

  ghost function SumOver<K(!new), O, V>(h: map<K, O>, f: O -> multiset<V>): multiset<V> {
    Total(Image(h, f))
  }

  lemma SumAdd<K(!new), O, V>(h: map<K, O>, f: O -> multiset<V>, k: K, o: O)
    requires k !in h
    ensures SumOver(h[k := o], f) == SumOver(h, f) + f(o)
  {
    assert Image(h[k := o], f) == Image(h, f)[k := f(o)];
    TotalUpdate(Image(h, f), k, f(o));
  }

  lemma SumEdit<K(!new), O, V>(h: map<K, O>, f: O -> multiset<V>, k: K, o: O)
    requires k in h
    ensures SumOver(h[k := o], f) + f(h[k]) == SumOver(h, f) + f(o)
  {
    assert Image(h[k := o], f) == Image(h, f)[k := f(o)];
    TotalUpdate(Image(h, f), k, f(o));
  }

  lemma SumSame<K(!new), O, V>(h: map<K, O>, f: O -> multiset<V>, k: K, o: O)
    requires k in h && f(h[k]) == f(o)
    ensures SumOver(h[k := o], f) == SumOver(h, f)
  {
    assert Image(h[k := o], f) == Image(h, f);
  }

  lemma SumRemove<K(!new), O, V>(h: map<K, O>, f: O -> multiset<V>, k: K)
    requires k in h
    ensures SumOver(h, f) == SumOver(h - {k}, f) + f(h[k])
  {
    assert Image(h - {k}, f) == Image(h, f) - {k};
    TotalSplit(Image(h, f), k);
  }

  lemma SumContains<K(!new), O, V>(h: map<K, O>, f: O -> multiset<V>, k: K, v: V)
    requires k in h && v in f(h[k])
    ensures v in SumOver(h, f)
  {
    SumRemove(h, f, k);
  }

  /** What is in no part is not in the sum. */
  lemma {:induction false} SumNowhere<K(!new), O, V>(h: map<K, O>, f: O -> multiset<V>, v: V)
    requires forall k :: k in h ==> v !in f(h[k])
    ensures v !in SumOver(h, f)
    decreases |h|
  {
    if h == map[] {
      assert Image(h, f) == map[];
    } else {
      var k :| k in h;
      SumRemove(h, f, k);
      SumNowhere(h - {k}, f, v);
    }
  }

  function Only<K, V>(m: map<K, V>, ks: set<K>): map<K, V> {
    map k | k in m && k in ks :: m[k]
  }

  /** The part of a sum at the keys `ks` and the part away from them make the whole. */
  lemma {:induction false} TotalPartition<K(!new), V>(m: map<K, multiset<V>>, ks: set<K>)
    requires ks <= m.Keys
    ensures Total(m) == Total(Only(m, ks)) + Total(m - ks)
    decreases |ks|
  {
    if ks == {} {
      assert Only(m, ks) == map[];
      assert m - ks == m;
    } else {
      var k :| k in ks;
      PartitionStep(m, ks, k);
      TotalPartition(m - {k}, ks - {k});
      TotalSplit(m, k);
      TotalSplit(Only(m, ks), k);
    }
  }

  lemma PartitionStep<K(!new), V>(m: map<K, multiset<V>>, ks: set<K>, k: K)
    requires k in ks && ks <= m.Keys
    ensures Only(m, ks) - {k} == Only(m - {k}, ks - {k})
    ensures (m - {k}) - (ks - {k}) == m - ks
  {
  }

  lemma SumPartition<K(!new), O, V>(h: map<K, O>, f: O -> multiset<V>, ks: set<K>)
    requires ks <= h.Keys
    ensures SumOver(h, f) == SumOver(Only(h, ks), f) + SumOver(h - ks, f)
  {
    assert Image(Only(h, ks), f) == Only(Image(h, f), ks);
    assert Image(h - ks, f) == Image(h, f) - ks;
    TotalPartition(Image(h, f), ks);
  }

  ghost predicate NoDup<T>(s: seq<T>) {
    forall i, j :: 0 <= i < j < |s| ==> s[i] != s[j]
  }

  lemma {:induction false} NoDupCount<T>(s: seq<T>, x: T)
    requires NoDup(s)
    ensures multiset(s)[x] == if x in s then 1 else 0
  {
    if s != [] {
      var n := |s| - 1;
      NoDupCount(s[..n], x);
      assert s == s[..n] + [s[n]];
    }
  }
}
