/** Finite sets and maps: sorting, summation, and the multiset of a map's values. */
module Collections {

  datatype Option<+T> = None | Some(value: T)

  /** Some element of a nonempty set. */
  lemma Element<T>(s: set<T>) returns (a: T)
    requires s != {}
    ensures a in s
  {
    a :| a in s;
  }

  lemma {:induction false} MinExists(s: set<int>)
    requires s != {}
    ensures exists m :: m in s && forall x | x in s :: m <= x
    decreases s
  {
    var a := Element(s);
    var rest := s - {a};
    assert forall x | x in s :: x == a || x in rest;
    if rest != {} {
      MinExists(rest);
      var r :| r in rest && forall x | x in rest :: r <= x;
      var m := if a <= r then a else r;
      assert m in s && forall x | x in s :: m <= x;
    }
  }

  /** The least element of a nonempty set. */
  function Min(s: set<int>): (m: int)
    requires s != {}
    ensures m in s && forall x | x in s :: m <= x
  {
    MinExists(s);
    var m :| m in s && forall x | x in s :: m <= x;
    m
  }

  /** The elements of `s` in strictly ascending order. */
  function Sorted(s: set<int>): (r: seq<int>)
    ensures forall i, j | 0 <= i < j < |r| :: r[i] < r[j]
    ensures forall x :: x in r <==> x in s
    ensures |r| == |s|
  {
    if s == {} then [] else
    var m := Min(s);
    [m] + Sorted(s - {m})
  }

  lemma MergeThenPut<K, V>(m: map<K, V>, n: map<K, V>, k: K, v: V)
    ensures (m + n)[k := v] == m + n[k := v]
  {}

  /** The sum of the values of a map. */
  function Sum(m: map<int, int>): int
    decreases m.Keys
  {
    if m == map[] then 0 else
    assert m.Keys != {};
    var k := Min(m.Keys);
    assert (m - {k}).Keys < m.Keys;
    m[k] + Sum(m - {k})
  }

  /** Any key may be taken out first. */
  lemma {:induction false} SumRemove(m: map<int, int>, k: int)
    requires k in m
    ensures Sum(m) == m[k] + Sum(m - {k})
    decreases m.Keys
  {
    var l := Min(m.Keys);
    if l != k {
      assert (m - {l}).Keys < m.Keys && (m - {k}).Keys < m.Keys;
      SumRemove(m - {l}, k);
      SumRemove(m - {k}, l);
      assert m - {l} - {k} == m - {k} - {l};
    }
  }

  lemma SumUpdate(m: map<int, int>, k: int, v: int)
    ensures Sum(m[k := v]) == Sum(m) - (if k in m then m[k] else 0) + v
  {
    SumRemove(m[k := v], k);
    assert m[k := v] - {k} == m - {k};
    if k in m {
      SumRemove(m, k);
    } else {
      assert m - {k} == m;
    }
  }

  lemma {:induction false} SumBounds(m: map<int, int>)
    requires forall k | k in m :: 0 <= m[k]
    ensures forall k | k in m :: m[k] <= Sum(m)
    ensures 0 <= Sum(m)
    decreases m.Keys
  {
    if m != map[] {
      var l := Min(m.Keys);
      assert (m - {l}).Keys < m.Keys;
      SumBounds(m - {l});
      forall k | k in m ensures m[k] <= Sum(m) {
        if k != l { assert k in m - {l}; }
      }
    }
  }

  /** The values of a map, with multiplicity. */
  ghost function Values<K, V>(m: map<K, V>): multiset<V>
    decreases m.Keys
  {
    if m == map[] then multiset{} else
    var k :| k in m;
    assert (m - {k}).Keys < m.Keys;
    multiset{m[k]} + Values(m - {k})
  }

  lemma {:induction false} ValuesRemove<K, V>(m: map<K, V>, k: K)
    requires k in m
    ensures Values(m) == multiset{m[k]} + Values(m - {k})
    decreases m.Keys
  {
    var l :| l in m && Values(m) == multiset{m[l]} + Values(m - {l});
    hide Values;
    if l != k {
      assert (m - {l}).Keys < m.Keys && (m - {k}).Keys < m.Keys;
      ValuesRemove(m - {l}, k);
      ValuesRemove(m - {k}, l);
      assert m - {l} - {k} == m - {k} - {l};
      Exchange(multiset{m[l]}, multiset{m[k]}, Values(m - {l} - {k}));
    }
  }

  lemma Exchange<V>(a: multiset<V>, b: multiset<V>, c: multiset<V>)
    ensures a + (b + c) == b + (a + c)
  {}

  lemma ValuesInsert<K, V>(m: map<K, V>, k: K, v: V)
    requires k !in m
    ensures Values(m[k := v]) == Values(m) + multiset{v}
  {
    ValuesRemove(m[k := v], k);
    assert m[k := v] - {k} == m;
  }

  lemma {:induction false} ValuesSize<K, V>(m: map<K, V>)
    ensures |Values(m)| == |m|
    decreases m.Keys
  {
    if m != map[] {
      var k :| k in m;
      assert (m - {k}).Keys < m.Keys;
      ValuesRemove(m, k);
      ValuesSize(m - {k});
      assert m.Keys == (m - {k}).Keys + {k};
      assert |m.Keys| == |(m - {k}).Keys| + 1;
      assert |m| == |m.Keys|;
    }
  }
}
