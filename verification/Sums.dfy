/** Sums over maps, and why the iteration order of a hash map does not matter. */
module Sums {

  /** The sum of `f` over the values of a map. */
  ghost function SumMap<K, V>(m: map<K, V>, f: V -> int): int
    decreases |m|
  {
    if m.Keys == {} then 0
    else
      var k :| k in m;
      f(m[k]) + SumMap(m - {k}, f)
  }

  /** `order` lists every key of `m` once. */
  ghost predicate Enumerates<K(!new), V>(order: seq<K>, m: map<K, V>) {
    && (forall k :: k in order <==> k in m)
    && (forall i, j :: 0 <= i < j < |order| ==> order[i] != order[j])
  }

  /** The values of `m` in the given order. */
  function Listing<K(!new), V>(order: seq<K>, m: map<K, V>): (values: seq<V>)
    requires forall k :: k in order ==> k in m
    ensures |values| == |order|
    ensures forall i :: 0 <= i < |order| ==> values[i] == m[order[i]]
  {
    seq(|order|, i requires 0 <= i < |order| => m[order[i]])
  }

  lemma ListingEmptyIff<K(!new), V>(order: seq<K>, m: map<K, V>)
    requires Enumerates(order, m)
    ensures Listing(order, m) == [] <==> m == map[]
  {
    if order != [] {
      assert order[0] in m;
    }
    forall k | k in m ensures k in order {
    }
  }

  /** The sum of `f` over a sequence, last element last. */
  ghost function SumSeq<V>(values: seq<V>, f: V -> int): int {
    if values == [] then 0
    else SumSeq(values[..|values| - 1], f) + f(values[|values| - 1])
  }

  lemma SumSeqSnoc<V>(values: seq<V>, v: V, f: V -> int)
    ensures SumSeq(values + [v], f) == SumSeq(values, f) + f(v)
  {
    assert (values + [v])[..|values|] == values;
  }

  lemma {:induction false} SumSeqConcat<V>(a: seq<V>, b: seq<V>, f: V -> int)
    ensures SumSeq(a + b, f) == SumSeq(a, f) + SumSeq(b, f)
  {
    if b == [] {
      assert a + b == a;
    } else {
      var n := |b| - 1;
      SumSeqConcat(a, b[..n], f);
      assert (a + b)[..|a| + n] == a + b[..n];
    }
  }

  /** Any key of the map may be taken first. */
  lemma {:induction false} SumMapRemove<K, V>(m: map<K, V>, f: V -> int, k: K)
    requires k in m
    ensures SumMap(m, f) == f(m[k]) + SumMap(m - {k}, f)
    decreases |m|
  {
    var c :| c in m && SumMap(m, f) == f(m[c]) + SumMap(m - {c}, f);
    if c != k {
      SumMapRemove(m - {c}, f, k);
      SumMapRemove(m - {k}, f, c);
      assert m - {c} - {k} == m - {k} - {c};
    }
  }

  /** Every enumeration of the map gives the same sum. */
  lemma {:induction false} SumMapOrder<K(!new), V>(order: seq<K>, m: map<K, V>, f: V -> int)
    requires Enumerates(order, m)
    ensures SumSeq(Listing(order, m), f) == SumMap(m, f)
    decreases |order|
  {
    if order == [] {
      assert m.Keys == {};
    } else {
      var n := |order| - 1;
      var last := order[n];
      assert last in order;
      var rest := m - {last};
      forall k ensures k in order[..n] <==> k in rest {
        if k in rest {
          assert k in order;
        }
      }
      SumMapOrder(order[..n], rest, f);
      SumMapRemove(m, f, last);
      assert Listing(order, m)[..n] == Listing(order[..n], rest);
    }
  }

  /** Summing a larger function gives a larger sum. */
  lemma {:induction false} SumSeqMonotone<V>(values: seq<V>, f: V -> int, g: V -> int)
    requires forall v :: v in values ==> f(v) <= g(v)
    ensures SumSeq(values, f) <= SumSeq(values, g)
  {
    if values != [] {
      var n := |values| - 1;
      SumSeqMonotone(values[..n], f, g);
      assert values[n] in values;
    }
  }
}
