/** The two-stage integer split of a round's reward among its contributions. */
module RewardSplit {
  import opened Prelude
  import opened Sums
  import opened Hashpower

  const SCALE: nat := 1_000_000

  datatype InsertEarning = InsertEarning(minerId: int, poolId: int, challengeId: int, amount: int)
  datatype InsertContribution = InsertContribution(minerId: int, challengeId: int, nonce: nat, difficulty: int)
  datatype UpdateReward = UpdateReward(minerId: int, balance: int)

  function SaturatingMul(a: nat, b: nat): nat {
    if a * b < U128 then a * b else U128 - 1
  }

  /** The cast `as u128` of an `i64`. */
  function AsU128(x: int): nat
    requires IsI64(x)
  {
    if x >= 0 then x else U128 + x
  }

  /** The parts per million that a contribution holds of the round's hashpower. */
  function Percent(hashpower: nat, total: nat): nat
    requires total > 0
  {
    SaturatingMul(hashpower, SCALE) / total
  }

  /** What a contribution earns, casts and saturation included. */
  function Earned(hashpower: nat, total: nat, rewards: int): int
    requires total > 0
    requires IsI64(rewards)
  {
    AsI64(WrapU64(SaturatingMul(Percent(hashpower, total), AsU128(rewards)) / SCALE))
  }

  ghost function Power(): Contribution -> int {
    (c: Contribution) => c.hashpower
  }

  /** The total by which a round's split divides. */
  ghost function TotalHashpower(contributions: Contributions): int {
    SumMap(contributions, Power())
  }

  ghost predicate Divisible(cs: seq<Contribution>, total: nat, rewards: int) {
    && total > 0
    && total == SumSeq(cs, Power())
    && 0 <= rewards < I64_LIMIT
    && forall c :: c in cs ==> c.hashpower <= HASHPOWER_CAP
  }

  // ----- One contribution

  lemma MulMonotone(a: nat, b: nat, c: nat)
    requires a <= b
    ensures a * c <= b * c
  {
    assert (b - a) * c >= 0;
  }

  lemma DivBounds(n: nat, d: nat)
    requires d > 0
    ensures n / d * d <= n < n / d * d + d
  {
  }

  lemma DivAtMost(n: nat, d: nat, q: nat)
    requires d > 0 && n <= q * d
    ensures n / d <= q
  {
    if n / d >= q + 1 {
      DivBounds(n, d);
      MulMonotone(q + 1, n / d, d);
    }
  }

  /** No product saturates and no cast changes a value: the credit is the plain double floor. */
  lemma EarnedIsDoubleFloor(hashpower: nat, total: nat, rewards: int)
    requires 0 < total && hashpower <= total && hashpower <= HASHPOWER_CAP
    requires 0 <= rewards < I64_LIMIT
    ensures Percent(hashpower, total) == hashpower * SCALE / total <= SCALE
    ensures hashpower * SCALE < U128
    ensures Percent(hashpower, total) * rewards < U128
    ensures Earned(hashpower, total, rewards) == Percent(hashpower, total) * rewards / SCALE
    ensures 0 <= Earned(hashpower, total, rewards) <= rewards
  {
    var p := hashpower * SCALE / total;
    MulMonotone(hashpower, total, SCALE);
    assert total * SCALE == SCALE * total;
    DivAtMost(hashpower * SCALE, total, SCALE);
    MulMonotone(p, SCALE, rewards);
    assert SCALE * rewards == rewards * SCALE;
    DivAtMost(p * rewards, SCALE, rewards);
  }

  lemma CutOffsBelow(t: int, r: int)
    requires t > 0 && r >= 0
    ensures (t - 1) * r + (SCALE - 1) * t < t * (r + SCALE)
  {
    assert (t - 1) * r == t * r - r;
    assert t * (r + SCALE) == t * r + t * SCALE;
  }

  /** What both divisions cut off, together. */
  lemma ShareIdentity(h: int, t: int, r: int, p: int, e: int)
    ensures SCALE * (h * r - e * t) == (h * SCALE - p * t) * r + (p * r - e * SCALE) * t
  {
    assert (h * SCALE - p * t) * r == (h * SCALE) * r - (p * t) * r;
    assert (p * r - e * SCALE) * t == (p * r) * t - (e * SCALE) * t;
    assert (p * t) * r == (p * r) * t;
  }

  lemma ShareAlgebra(h: nat, t: nat, r: nat, p: nat, e: nat)
    requires t > 0
    requires p * t <= h * SCALE < p * t + t
    requires e * SCALE <= p * r < e * SCALE + SCALE
    ensures e * t <= h * r
    ensures SCALE * (h * r - e * t) < t * (r + SCALE)
  {
    var x := h * SCALE - p * t;
    var y := p * r - e * SCALE;
    ShareIdentity(h, t, r, p, e);
    MulMonotone(0, x, r);
    MulMonotone(0, y, t);
    MulMonotone(x, t - 1, r);
    MulMonotone(y, SCALE - 1, t);
    CutOffsBelow(t, r);
  }

  /** The credit is below the exact share, by less than rewards/1_000_000 + 1. */
  lemma EarnedNearExactShare(hashpower: nat, total: nat, rewards: int)
    requires 0 < total && hashpower <= total && hashpower <= HASHPOWER_CAP
    requires 0 <= rewards < I64_LIMIT
    ensures Earned(hashpower, total, rewards) * total <= hashpower * rewards
    ensures SCALE * (hashpower * rewards - Earned(hashpower, total, rewards) * total) < total * (rewards + SCALE)
  {
    EarnedIsDoubleFloor(hashpower, total, rewards);
    var p := Percent(hashpower, total);
    var e := Earned(hashpower, total, rewards);
    DivBounds(hashpower * SCALE, total);
    DivBounds(p * rewards, SCALE);
    ShareAlgebra(hashpower, total, rewards, p, e);
  }

  lemma DivMonotone(a: nat, b: nat, d: nat)
    requires d > 0 && a <= b
    ensures a / d <= b / d
  {
    DivBounds(b, d);
    if a / d >= b / d + 1 {
      DivBounds(a, d);
      MulMonotone(b / d + 1, a / d, d);
    }
  }

  /** Within one message a larger hashpower never earns less. */
  lemma HigherHashpowerEarnsNoLess(a: nat, b: nat, total: nat, rewards: int)
    requires a <= b <= total && b <= HASHPOWER_CAP && total > 0 && 0 <= rewards < I64_LIMIT
    ensures Earned(a, total, rewards) <= Earned(b, total, rewards)
  {
    EarnedIsDoubleFloor(a, total, rewards);
    EarnedIsDoubleFloor(b, total, rewards);
    MulMonotone(a, b, SCALE);
    DivMonotone(a * SCALE, b * SCALE, total);
    MulMonotone(Percent(a, total), Percent(b, total), rewards);
    DivMonotone(Percent(a, total) * rewards, Percent(b, total) * rewards, SCALE);
  }

  lemma NothingEarnsNothing(total: nat, rewards: int)
    requires total > 0 && 0 <= rewards < I64_LIMIT
    ensures Earned(0, total, rewards) == 0
  {
    EarnedIsDoubleFloor(0, total, rewards);
    assert Percent(0, total) == 0 by {
      DivAtMost(0, total, 0);
    }
  }

  lemma DivIsZeroIff(n: nat)
    ensures n / SCALE == 0 <==> n < SCALE
  {
  }

  /** Within one message a higher difficulty earns no less, exactly when it is below 69 or the lower
      one's share rounds down to nothing (as it does from 69 on). */
  lemma HigherDifficultyEarnsNoLess(low: nat, high: nat, total: nat, rewards: int)
    requires MIN_DIFF <= low <= high && 0 < total && 0 <= rewards < I64_LIMIT
    requires HashpowerOf(low) <= total && HashpowerOf(high) <= total
    ensures Earned(HashpowerOf(low), total, rewards) <= Earned(HashpowerOf(high), total, rewards) <==>
            high <= 68 || Percent(HashpowerOf(low), total) * rewards < SCALE
    ensures low >= 69 ==> Percent(HashpowerOf(low), total) * rewards < SCALE
  {
    MonotoneAndCapped(low, high);
    MonotoneAndCapped(low, low);
    IntendedUpTo68(low);
    IntendedUpTo68(high);
    var a, b := HashpowerOf(low), HashpowerOf(high);
    EarnedIsDoubleFloor(a, total, rewards);
    DivIsZeroIff(Percent(a, total) * rewards);
    NothingEarnsNothing(total, rewards);
    if high <= 68 {
      HigherHashpowerEarnsNoLess(a, b, total, rewards);
    }
    if low >= 69 {
      EarnedIsDoubleFloor(0, total, rewards);
      DivAtMost(0, total, 0);
    }
  }

  lemma SaturatesFrom(a: nat, b: nat)
    requires a >= 2 && b >= U128 / 2
    ensures SaturatingMul(a, b) == U128 - 1
  {
    MulMonotone(2, a, b);
  }

  lemma SaturatedAmount()
    ensures AsI64(WrapU64((U128 - 1) / SCALE)) == -8_271_224_894_746_183_592
  {
    assert (U128 - 1) / SCALE == 340_282_366_920_938_463_463_374_607_431_768;
  }

  /** What a miner is booked for a negative reward, when the pool's balance fell during the round: the
      cast makes it a huge unsigned number, so from 2 parts per million on the product saturates and
      the amount is one and the same negative constant; below 1 part per million it is nothing. */
  lemma NegativeRewardEarns(hashpower: nat, total: nat, rewards: int)
    requires total > 0 && IsI64(rewards) && rewards < 0
    ensures Percent(hashpower, total) >= 2 ==> Earned(hashpower, total, rewards) == -8_271_224_894_746_183_592
    ensures Percent(hashpower, total) == 0 ==> Earned(hashpower, total, rewards) == 0
  {
    var percent, factor := Percent(hashpower, total), AsU128(rewards);
    SaturatedAmount();
    if percent >= 2 {
      SaturatesFrom(percent, factor);
    } else if percent == 0 {
      assert SaturatingMul(0, factor) == 0;
    }
  }

  // ----- All contributions of a message

  ghost function EarnedBy(total: nat, rewards: int): Contribution -> int
    requires total > 0 && IsI64(rewards)
  {
    (c: Contribution) => Earned(c.hashpower, total, rewards)
  }

  ghost function PercentBy(total: nat): Contribution -> int
    requires total > 0
  {
    (c: Contribution) => Percent(c.hashpower, total)
  }

  lemma {:induction false} PowerOfPart(cs: seq<Contribution>)
    ensures SumSeq(cs, Power()) >= 0
    ensures forall c :: c in cs ==> c.hashpower <= SumSeq(cs, Power())
  {
    if cs != [] {
      PowerOfPart(cs[..|cs| - 1]);
    }
  }

  lemma Distribute(a: int, b: int, c: int)
    ensures (a + b) * c == a * c + b * c
  {
  }

  /** Bounds of the partial sums of the first and of the second division. */
  lemma {:induction false} PartialSums(cs: seq<Contribution>, total: nat, rewards: int)
    requires total > 0 && 0 <= rewards < I64_LIMIT
    requires forall c :: c in cs ==> c.hashpower <= total && c.hashpower <= HASHPOWER_CAP
    ensures var power, percent, earned :=
              SumSeq(cs, Power()), SumSeq(cs, PercentBy(total)), SumSeq(cs, EarnedBy(total, rewards));
            && percent * total <= power * SCALE <= percent * total + |cs| * (total - 1)
            && earned * SCALE <= percent * rewards <= earned * SCALE + |cs| * (SCALE - 1)
            && 0 <= percent && 0 <= earned
  {
    if cs != [] {
      var n := |cs| - 1;
      var c := cs[n];
      PartialSums(cs[..n], total, rewards);
      EarnedIsDoubleFloor(c.hashpower, total, rewards);
      DivBounds(c.hashpower * SCALE, total);
      DivBounds(Percent(c.hashpower, total) * rewards, SCALE);
      Distribute(SumSeq(cs[..n], PercentBy(total)), Percent(c.hashpower, total), total);
      Distribute(SumSeq(cs[..n], PercentBy(total)), Percent(c.hashpower, total), rewards);
      Distribute(n, 1, total - 1);
    }
  }

  lemma SplitAlgebra(n: nat, t: nat, r: nat, percent: nat, paid: nat)
    requires t > 0 && n > 0
    requires percent * t <= t * SCALE <= percent * t + n * (t - 1)
    requires paid * SCALE <= percent * r <= paid * SCALE + n * (SCALE - 1)
    ensures paid <= r
    ensures SCALE * (r - paid) <= r * (n - 1) + (SCALE - 1) * n
  {
    if percent > SCALE {
      MulMonotone(SCALE + 1, percent, t);
    }
    MulMonotone(percent, SCALE, r);
    if SCALE - percent >= n {
      MulMonotone(n, SCALE - percent, t);
      Distribute(SCALE - percent, percent, t);
      Distribute(t, -1, n);
      assert false;
    }
    var lost := SCALE - percent;
    MulMonotone(lost, n - 1, r);
    Distribute(SCALE - percent, percent, r);
  }

  /** The split never pays more than the reward, and the dust it leaves is bounded. */
  lemma SplitConserves(cs: seq<Contribution>, total: nat, rewards: int)
    requires Divisible(cs, total, rewards)
    ensures var paid := SumSeq(cs, EarnedBy(total, rewards));
            && 0 <= paid <= rewards
            && SCALE * (rewards - paid) <= rewards * (|cs| - 1) + (SCALE - 1) * |cs|
  {
    PowerOfPart(cs);
    PartialSums(cs, total, rewards);
    var percent := SumSeq(cs, PercentBy(total));
    var paid := SumSeq(cs, EarnedBy(total, rewards));
    SplitAlgebra(|cs|, total, rewards, percent, paid);
  }

  /** The credits of a message, whatever the iteration order of its hash map. */
  lemma SplitIsOrderFree(order: seq<Pubkey>, other: seq<Pubkey>, m: Contributions, total: nat, rewards: int)
    requires Enumerates(order, m) && Enumerates(other, m)
    requires total > 0 && IsI64(rewards)
    ensures SumSeq(Listing(order, m), EarnedBy(total, rewards)) == SumSeq(Listing(other, m), EarnedBy(total, rewards))
    ensures SumSeq(Listing(order, m), Power()) == SumSeq(Listing(other, m), Power())
  {
    SumMapOrder(order, m, EarnedBy(total, rewards));
    SumMapOrder(other, m, EarnedBy(total, rewards));
    SumMapOrder(order, m, Power());
    SumMapOrder(other, m, Power());
  }
}
