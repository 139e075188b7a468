/** The local estimate of a dynamic priority fee. */
module Fee {
  import opened Prelude

  const CHUNK_SIZE: nat := 150
  const CHUNK_LIMIT: nat := 3

  /** The percentiles that are computed; only 75 is read. */
  const PERCENTILES: seq<nat> := [10, 25, 50, 60, 70, 75, 80, 85, 90, 100]

  datatype PrioritizationFee = PrioritizationFee(slot: nat, fee: nat)

  ghost predicate Ordered<T(!new)>(s: seq<T>, key: T -> int) {
    forall i, j :: 0 <= i <= j < |s| ==> key(s[i]) <= key(s[j])
  }

  /** The first `n` elements are in order, except that the one at `hole` may belong further down. */
  ghost predicate OrderedExcept<T(!new)>(s: seq<T>, key: T -> int, n: int, hole: int)
    requires n <= |s|
  {
    forall i, j :: 0 <= i <= j < n && j != hole ==> key(s[i]) <= key(s[j])
  }

  lemma NewElement<T(!new)>(s: seq<T>, key: T -> int, n: nat)
    requires n < |s| && Ordered(s[..n], key)
    ensures OrderedExcept(s, key, n + 1, n)
  {
    forall i, j | 0 <= i <= j < n ensures key(s[i]) <= key(s[j]) {
      assert key(s[..n][i]) <= key(s[..n][j]);
    }
  }

  lemma SwapSinks<T(!new)>(s: seq<T>, key: T -> int, n: nat, hole: nat)
    requires 0 < hole <= n < |s| && OrderedExcept(s, key, n + 1, hole) && key(s[hole - 1]) > key(s[hole])
    ensures OrderedExcept(s[hole - 1 := s[hole]][hole := s[hole - 1]], key, n + 1, hole - 1)
    ensures multiset(s[hole - 1 := s[hole]][hole := s[hole - 1]]) == multiset(s)
  {
    var t := s[hole - 1 := s[hole]][hole := s[hole - 1]];
    forall i, j | 0 <= i <= j < n + 1 && j != hole - 1 ensures key(t[i]) <= key(t[j]) {
      var p := if i == hole then hole - 1 else if i == hole - 1 then hole else i;
      if j == hole {
        assert i < hole - 1 ==> key(s[i]) <= key(s[hole - 1]);
      } else if p <= j {
        assert key(s[p]) <= key(s[j]);
      }
    }
  }

  lemma InPlace<T(!new)>(s: seq<T>, key: T -> int, n: nat, hole: nat)
    requires hole <= n < |s| && OrderedExcept(s, key, n + 1, hole)
    requires hole > 0 ==> key(s[hole - 1]) <= key(s[hole])
    ensures Ordered(s[..n + 1], key)
  {
    forall i, j | 0 <= i <= j < n + 1 ensures key(s[i]) <= key(s[j]) {
      if i < j == hole {
        assert key(s[i]) <= key(s[hole - 1]);
      }
    }
  }

  /** Moves element `n` down to its place among the first `n`. */
  method SinkLast<T(!new)>(a: array<T>, key: T -> int, n: nat)
    requires n < a.Length && Ordered(a[..n], key)
    modifies a
    ensures Ordered(a[..n + 1], key)
    ensures multiset(a[..]) == multiset(old(a[..]))
  {
    var j := n;
    NewElement(a[..], key, n);
    while j > 0 && key(a[j - 1]) > key(a[j])
      invariant 0 <= j <= n && OrderedExcept(a[..], key, n + 1, j)
      invariant multiset(a[..]) == multiset(old(a[..]))
    {
      ghost var before := a[..];
      a[j - 1], a[j] := a[j], a[j - 1];
      assert a[..] == before[j - 1 := before[j]][j := before[j - 1]];
      SwapSinks(before, key, n, j);
      j := j - 1;
    }
    InPlace(a[..], key, n, j);
  }

  /** Sorts in place by the key. Stands for the library's sorts. */
  method SortBy<T(!new)>(a: array<T>, key: T -> int)
    modifies a
    ensures Ordered(a[..], key)
    ensures multiset(a[..]) == multiset(old(a[..]))
  {
    var n := 0;
    while n < a.Length
      invariant 0 <= n <= a.Length
      invariant Ordered(a[..n], key)
      invariant multiset(a[..]) == multiset(old(a[..]))
    {
      SinkLast(a, key, n);
      n := n + 1;
    }
    assert a[..n] == a[..];
  }

  // ----- Order statistics

  ghost predicate Splits(values: multiset<nat>, k: nat, v: nat, low: multiset<nat>, high: multiset<nat>) {
    && values == low + multiset{v} + high && |low| + 1 == k
    && (forall x :: x in low ==> x <= v) && (forall x :: x in high ==> v <= x)
  }

  /** `v` is the k-th smallest, counted from 1: it splits the rest into k - 1 values that are no
      larger and others that are no smaller. */
  ghost predicate KthSmallest(values: multiset<nat>, k: nat, v: nat) {
    exists low, high :: Splits(values, k, v, low, high)
  }

  lemma SubmultisetIsSmaller(a: multiset<nat>, b: multiset<nat>)
    requires forall x :: x in a ==> a[x] <= b[x]
    ensures |a| <= |b|
  {
    assert b == a + (b - a);
  }

  lemma NotKthTwice(values: multiset<nat>, k: nat, v: nat, w: nat)
    requires KthSmallest(values, k, v) && KthSmallest(values, k, w)
    ensures v >= w
  {
    var low, high :| Splits(values, k, v, low, high);
    var low', high' :| Splits(values, k, w, low', high');
    if v < w {
      var first := low + multiset{v};
      forall x | x in first ensures first[x] <= low'[x] {
        assert values[x] == low'[x] + multiset{w}[x] + high'[x];
      }
      SubmultisetIsSmaller(first, low');
      assert false;
    }
  }

  /** There is only one k-th smallest value, whatever order the values come in. */
  lemma KthSmallestIsUnique(values: multiset<nat>, k: nat, v: nat, w: nat)
    requires KthSmallest(values, k, v) && KthSmallest(values, k, w)
    ensures v == w
  {
    if v < w {
      NotKthTwice(values, k, v, w);
    } else if w < v {
      NotKthTwice(values, k, w, v);
    }
  }

  function FeeKey(): nat -> int {
    (x: nat) => x
  }

  lemma SortedSplits(s: seq<nat>, k: nat)
    requires 1 <= k <= |s| && Ordered(s, FeeKey())
    ensures KthSmallest(multiset(s), k, s[k - 1])
  {
    var low, high := s[..k - 1], s[k..];
    assert s == low + [s[k - 1]] + high;
    assert Splits(multiset(s), k, s[k - 1], multiset(low), multiset(high)) by {
      forall x | x in low ensures x <= s[k - 1] {
        var i :| 0 <= i < |low| && low[i] == x;
        assert s[i] == x;
      }
      forall x | x in high ensures s[k - 1] <= x {
        var i :| 0 <= i < |high| && high[i] == x;
        assert s[k + i] == x;
      }
    }
  }

  // ----- Percentiles

  /** `percentile / 100 * len`, rounded half up. */
  function RoundedRank(percentile: nat, len: nat): nat {
    (2 * percentile * len + 100) / 200
  }

  /** The source computes that rank in floating point: exactly for percentile 75, as 0.75 is a binary
      fraction; for the others it may round the other way at a half, but never past the length. */
  type FloatRank = (nat, nat) -> nat

  ghost predicate Rounds(rank: FloatRank, len: nat) {
    rank(75, len) == RoundedRank(75, len) && forall p :: p <= 100 ==> rank(p, len) <= len
  }

  lemma ProductMonotone(a: nat, b: nat, c: nat)
    requires a <= b
    ensures a * c <= b * c
  {
    assert (b - a) * c >= 0;
    assert b * c == a * c + (b - a) * c;
  }

  /** The exact ranks never exceed the length. */
  lemma RankInBounds(percentile: nat, len: nat)
    requires percentile <= 100
    ensures RoundedRank(percentile, len) <= len
  {
    ProductMonotone(percentile, 100, len);
    assert 2 * percentile * len == 2 * (percentile * len);
    var n := percentile * len;
    assert n <= 100 * len;
    assert (2 * n + 100) / 200 <= (200 * len + 100) / 200;
  }

  lemma ExactRankRounds(len: nat)
    ensures Rounds((p: nat, n: nat) => RoundedRank(p, n), len)
  {
    forall p: nat | p <= 100 ensures RoundedRank(p, len) <= len {
      RankInBounds(p, len);
    }
  }

  function SaturatingPred(x: nat): nat {
    if x == 0 then 0 else x - 1
  }

  /** The rank that a percentile reads, counted from 1. */
  function Rank(rank: FloatRank, percentile: nat, len: nat): nat {
    SaturatingPred(rank(percentile, len)) + 1
  }

  /** The 75th percentile reads rank (3 * len + 2) / 4. */
  lemma Rank75(rank: FloatRank, len: nat)
    requires len > 0 && Rounds(rank, len)
    ensures Rank(rank, 75, len) == (3 * len + 2) / 4
  {
  }

  method ReadPercentiles(sorted: seq<nat>, wanted: seq<nat>, rank: FloatRank) returns (percentiles: map<nat, nat>)
    requires sorted != [] && Ordered(sorted, FeeKey()) && Rounds(rank, |sorted|) && forall p :: p in wanted ==> p <= 100
    ensures forall p :: p in percentiles <==> p in wanted
    ensures forall p :: p in percentiles ==>
              KthSmallest(multiset(sorted), Rank(rank, p, |sorted|), percentiles[p])
  {
    var len := |sorted|;
    percentiles := map[];
    var k := 0;
    while k < |wanted|
      invariant 0 <= k <= |wanted|
      invariant forall p :: p in percentiles <==> p in wanted[..k]
      invariant forall p :: p in percentiles ==> KthSmallest(multiset(sorted), Rank(rank, p, len), percentiles[p])
    {
      var p := wanted[k];
      assert p in wanted;
      var index := rank(p, len);
      SortedSplits(sorted, Rank(rank, p, len));
      percentiles := percentiles[p := sorted[SaturatingPred(index)]];
      k := k + 1;
    }
  }

  method SortedCopy(fees: array<nat>) returns (sorted: seq<nat>)
    ensures |sorted| == fees.Length && Ordered(sorted, FeeKey()) && multiset(sorted) == multiset(fees[..])
  {
    var copy := new nat[fees.Length](i requires 0 <= i < fees.Length reads fees => fees[i]);
    assert copy[..] == fees[..];
    SortBy<nat>(copy, FeeKey());
    sorted := copy[..];
  }

  /** Sorts a copy and reads one entry for each percentile. */
  method CalculatePercentiles(fees: array<nat>, rank: FloatRank) returns (percentiles: map<nat, nat>)
    requires fees.Length > 0 && Rounds(rank, fees.Length)
    ensures forall p :: p in percentiles <==> p in PERCENTILES
    ensures forall p :: p in percentiles ==>
              KthSmallest(multiset(fees[..]), Rank(rank, p, fees.Length), percentiles[p])
    ensures 75 in percentiles && KthSmallest(multiset(fees[..]), (3 * fees.Length + 2) / 4, percentiles[75])
  {
    var sorted := SortedCopy(fees);
    percentiles := ReadPercentiles(sorted, PERCENTILES, rank);
    assert PERCENTILES[5] == 75;
    Rank75(rank, fees.Length);
  }

  // ----- The estimate

  function SlotKey(): PrioritizationFee -> int {
    (f: PrioritizationFee) => 0 - f.slot as int
  }

  /** How many chunks are looked at. */
  function Chunks(n: nat): (c: nat)
    ensures c <= CHUNK_LIMIT
  {
    var all := (n + CHUNK_SIZE - 1) / CHUNK_SIZE;
    if all < CHUNK_LIMIT then all else CHUNK_LIMIT
  }

  /** The loop over the chunks goes on exactly while one is left. */
  lemma MoreChunks(n: nat, c: nat)
    ensures c < CHUNK_LIMIT && c * CHUNK_SIZE < n <==> c < Chunks(n)
  {
  }

  function ChunkEnd(n: nat, c: nat): nat {
    if (c + 1) * CHUNK_SIZE < n then (c + 1) * CHUNK_SIZE else n
  }

  /** The fees of chunk `c`, newest slots first. */
  function ChunkFees(sorted: seq<PrioritizationFee>, c: nat): (fees: seq<nat>)
    requires c < Chunks(|sorted|)
    ensures 0 < |fees| <= CHUNK_SIZE
    ensures c * CHUNK_SIZE + |fees| <= |sorted|
    ensures forall i :: 0 <= i < |fees| ==> fees[i] == sorted[c * CHUNK_SIZE + i].fee
  {
    var from, to := c * CHUNK_SIZE, ChunkEnd(|sorted|, c);
    seq<nat>(to - from, i requires 0 <= i < to - from => sorted[from + i].fee)
  }

  /** The estimate that a list in slot order leads to. */
  ghost predicate IsEstimate(sorted: seq<PrioritizationFee>, fee: nat) {
    && sorted != []
    && var last := ChunkFees(sorted, Chunks(|sorted|) - 1);
       KthSmallest(multiset(last), (3 * |last| + 2) / 4, fee)
  }

  /** The chunk that decides: the third, of at most 150 rows, or the last one of a shorter list. */
  lemma DecidingChunk(sorted: seq<PrioritizationFee>)
    requires sorted != []
    ensures var n, last := |sorted|, ChunkFees(sorted, Chunks(|sorted|) - 1);
            var from, to := (if n <= 150 then 0 else if n <= 300 then 150 else 300), (if n <= 450 then n else 450);
            && |last| == to - from
            && forall i :: from <= i < to ==> last[i - from] == sorted[i].fee
  {
  }

  ghost predicate Descending(s: seq<PrioritizationFee>) {
    forall i, j :: 0 <= i <= j < |s| ==> s[i].slot >= s[j].slot
  }

  lemma OrderedIsDescending(s: seq<PrioritizationFee>)
    requires Ordered(s, SlotKey())
    ensures Descending(s)
  {
    forall i, j | 0 <= i <= j < |s| ensures s[i].slot >= s[j].slot {
      assert SlotKey()(s[i]) <= SlotKey()(s[j]);
    }
  }

  ghost predicate NewestFirst(rows: seq<PrioritizationFee>, sorted: seq<PrioritizationFee>) {
    Descending(sorted) && multiset(sorted) == multiset(rows)
  }

  /** The percentiles were read from these fees. */
  ghost predicate ReadFrom(fees: seq<nat>, percentiles: map<nat, nat>) {
    fees != [] && 75 in percentiles && KthSmallest(multiset(fees), (3 * |fees| + 2) / 4, percentiles[75])
  }

  method AsArray(fees: seq<nat>) returns (chunk: array<nat>)
    ensures fresh(chunk) && chunk[..] == fees
  {
    chunk := new nat[|fees|](i requires 0 <= i < |fees| => fees[i]);
    assert chunk[..] == fees;
  }

  method ChunkPercentiles(fees: seq<nat>, rank: FloatRank) returns (percentiles: map<nat, nat>)
    requires fees != [] && Rounds(rank, |fees|)
    ensures ReadFrom(fees, percentiles)
  {
    var chunk := AsArray(fees);
    percentiles := CalculatePercentiles(chunk, rank);
  }

  /** The chunks overwrite each other's percentiles, so the last one looked at decides. */
  method EstimateFrom(sorted: seq<PrioritizationFee>, rank: FloatRank) returns (fee: nat)
    requires sorted != [] && forall len: nat :: len <= CHUNK_SIZE ==> Rounds(rank, len)
    ensures IsEstimate(sorted, fee)
  {
    var percentiles: map<nat, nat> := map[];
    var c := 0;
    while c < CHUNK_LIMIT && c * CHUNK_SIZE < |sorted|
      invariant 0 <= c <= Chunks(|sorted|)
      invariant c > 0 ==> ReadFrom(ChunkFees(sorted, c - 1), percentiles)
    {
      MoreChunks(|sorted|, c);
      percentiles := ChunkPercentiles(ChunkFees(sorted, c), rank);
      c := c + 1;
    }
    MoreChunks(|sorted|, c);
    fee := if 75 in percentiles then percentiles[75] else 0;
  }

  /** Sorts the rows, newest slot first, and estimates from them; an empty list is an error. */
  method LocalDynamicFee(rows: seq<PrioritizationFee>, rank: FloatRank) returns (fee: Option<nat>)
    requires forall len: nat :: len <= CHUNK_SIZE ==> Rounds(rank, len)
    ensures fee.None? <==> rows == []
    ensures fee.Some? ==> exists sorted :: NewestFirst(rows, sorted) && IsEstimate(sorted, fee.value)
  {
    if rows == [] {
      return None;
    }
    var sorted := new PrioritizationFee[|rows|](i requires 0 <= i < |rows| => rows[i]);
    assert sorted[..] == rows;
    SortBy(sorted, SlotKey());
    var order := sorted[..];
    OrderedIsDescending(order);
    assert |order| == |rows| && NewestFirst(rows, order);
    var estimate := EstimateFrom(order, rank);
    fee := Some(estimate);
  }

  // ----- The estimate depends on the rows alone

  ghost predicate DistinctSlots(rows: multiset<PrioritizationFee>) {
    forall x, y :: x in rows && y in rows && x.slot == y.slot ==> x == y && rows[x] == 1
  }

  lemma TailInOrder(a: seq<PrioritizationFee>)
    requires a != [] && Descending(a)
    ensures Descending(a[1..])
  {
  }

  lemma TailDistinct(a: seq<PrioritizationFee>)
    requires a != [] && DistinctSlots(multiset(a))
    ensures multiset(a[1..]) == multiset(a) - multiset{a[0]} && DistinctSlots(multiset(a[1..]))
  {
    assert a == [a[0]] + a[1..];
    var rest, all := multiset(a[1..]), multiset(a);
    assert all == multiset{a[0]} + rest;
    forall x, y | x in rest && y in rest && x.slot == y.slot ensures x == y && rest[x] == 1 {
      assert x in all && y in all;
    }
  }

  lemma SameTail(a: seq<PrioritizationFee>, b: seq<PrioritizationFee>)
    requires Descending(a) && Descending(b) && multiset(a) == multiset(b)
    requires DistinctSlots(multiset(a)) && a != [] && b != [] && a[0] == b[0]
    ensures Descending(a[1..]) && Descending(b[1..]) && multiset(a[1..]) == multiset(b[1..])
    ensures DistinctSlots(multiset(a[1..]))
  {
    TailInOrder(a);
    TailInOrder(b);
    TailDistinct(a);
    TailDistinct(b);
  }

  lemma HeadAndTail(a: seq<PrioritizationFee>, b: seq<PrioritizationFee>)
    requires a != [] && b != [] && a[0] == b[0] && a[1..] == b[1..]
    ensures a == b
  {
    assert a == [a[0]] + a[1..] && b == [b[0]] + b[1..];
  }

  lemma SameLength(a: seq<PrioritizationFee>, b: seq<PrioritizationFee>)
    requires multiset(a) == multiset(b)
    ensures |a| == |b|
  {
    assert |multiset(a)| == |a| && |multiset(b)| == |b|;
  }

  lemma NewestIsFirst(a: seq<PrioritizationFee>, b: seq<PrioritizationFee>)
    requires Descending(a) && a != [] && multiset(a) == multiset(b) && b != []
    ensures b[0].slot <= a[0].slot && b[0] in multiset(a)
  {
    assert b[0] in multiset(b);
    var i :| 0 <= i < |a| && a[i] == b[0];
  }

  lemma SameHead(a: seq<PrioritizationFee>, b: seq<PrioritizationFee>)
    requires Descending(a) && Descending(b) && multiset(a) == multiset(b)
    requires DistinctSlots(multiset(a)) && a != [] && b != []
    ensures a[0] == b[0]
  {
    NewestIsFirst(a, b);
    NewestIsFirst(b, a);
    assert a[0] in multiset(a);
  }

  /** With one row per slot there is only one order. */
  lemma {:induction false} OneOrder(a: seq<PrioritizationFee>, b: seq<PrioritizationFee>)
    requires Descending(a) && Descending(b) && multiset(a) == multiset(b)
    requires DistinctSlots(multiset(a))
    ensures a == b
    decreases |a|
  {
    SameLength(a, b);
    if a != [] {
      SameHead(a, b);
      SameTail(a, b);
      OneOrder(a[1..], b[1..]);
      HeadAndTail(a, b);
    }
  }

  lemma OneEstimate(sorted: seq<PrioritizationFee>, fee: nat, fee': nat)
    requires IsEstimate(sorted, fee) && IsEstimate(sorted, fee')
    ensures fee == fee'
  {
    var last := ChunkFees(sorted, Chunks(|sorted|) - 1);
    KthSmallestIsUnique(multiset(last), (3 * |last| + 2) / 4, fee, fee');
  }

  /** With one row per slot, the estimate is a function of the set of rows: their order does not
      matter, and neither does the order of the fees within the deciding chunk. */
  lemma EstimateIsOrderFree(rows: seq<PrioritizationFee>, other: seq<PrioritizationFee>,
                            a: seq<PrioritizationFee>, b: seq<PrioritizationFee>, fee: nat, fee': nat)
    requires multiset(rows) == multiset(other) && DistinctSlots(multiset(rows))
    requires NewestFirst(rows, a) && IsEstimate(a, fee)
    requires NewestFirst(other, b) && IsEstimate(b, fee')
    ensures fee == fee'
  {
    OneOrder(a, b);
    OneEstimate(a, fee, fee');
  }
}
