/** Difficulty to hashpower, as credited on intake. */
module Hashpower {
  import opened Prelude

  const MIN_HASHPOWER: nat := 5
  const MIN_DIFF: nat := 5
  const HASHPOWER_CAP: nat := 655_360

  function Pow2(k: nat): (r: nat)
    ensures r > 0
  {
    if k == 0 then 1 else 2 * Pow2(k - 1)
  }

  /** The credited hashpower with the `u64` power and product of a release build. */
  function HashpowerOf(diff: nat): nat
    requires diff >= MIN_DIFF
  {
    var raw := WrapU64(MIN_HASHPOWER * WrapU64(Pow2(diff - MIN_DIFF)));
    if raw > HASHPOWER_CAP then HASHPOWER_CAP else raw
  }

  /** The intended value: doubling from 5 at difficulty 5 and capped. */
  function Intended(diff: nat): nat
    requires diff >= MIN_DIFF
  {
    var exact := MIN_HASHPOWER * Pow2(diff - MIN_DIFF);
    if exact > HASHPOWER_CAP then HASHPOWER_CAP else exact
  }

  lemma {:induction false} Pow2Monotone(a: nat, b: nat)
    requires a <= b
    ensures Pow2(a) <= Pow2(b)
  {
    if a < b {
      Pow2Monotone(a, b - 1);
    }
  }

  lemma {:induction false} Pow2Sum(a: nat, b: nat)
    ensures Pow2(a + b) == Pow2(a) * Pow2(b)
  {
    if a > 0 {
      Pow2Sum(a - 1, b);
    }
  }

  lemma SixteenDoublings(k: nat, v: nat)
    requires Pow2(k) == v
    ensures Pow2(k + 16) == 65_536 * v
  {
    assert Pow2(k + 2) == 2 * Pow2(k + 1) == 4 * v;
    assert Pow2(k + 4) == 2 * Pow2(k + 3) == 16 * v;
    assert Pow2(k + 6) == 2 * Pow2(k + 5) == 64 * v;
    assert Pow2(k + 8) == 2 * Pow2(k + 7) == 256 * v;
    assert Pow2(k + 10) == 2 * Pow2(k + 9) == 1024 * v;
    assert Pow2(k + 12) == 2 * Pow2(k + 11) == 4096 * v;
    assert Pow2(k + 14) == 2 * Pow2(k + 13) == 16_384 * v;
    assert Pow2(k + 15) == 32_768 * v;
  }

  lemma Pow2Near(k: nat)
    requires k == 64
    ensures Pow2(k - 48) == 0x1_0000 && Pow2(k - 47) == 0x2_0000
    ensures Pow2(k - 3) == 0x2000_0000_0000_0000
    ensures Pow2(k - 2) == 0x4000_0000_0000_0000
    ensures Pow2(k - 1) == 0x8000_0000_0000_0000
    ensures Pow2(k) == U64
  {
    SixteenDoublings(k - 64, 1);
    SixteenDoublings(k - 48, 0x1_0000);
    SixteenDoublings(k - 32, 0x1_0000_0000);
    SixteenDoublings(k - 16, 0x1_0000_0000_0000);
  }

  lemma Pow2Values()
    ensures Pow2(16) == 0x1_0000 && Pow2(17) == 0x2_0000
    ensures Pow2(61) == 0x2000_0000_0000_0000
    ensures Pow2(62) == 0x4000_0000_0000_0000
    ensures Pow2(63) == 0x8000_0000_0000_0000
    ensures Pow2(64) == U64
  {
    Pow2Near(64);
  }

  /** Neither the power nor the product overflows exactly up to difficulty 66. */
  lemma NoOverflowUpTo66(diff: nat)
    requires diff >= MIN_DIFF
    ensures MIN_HASHPOWER * Pow2(diff - MIN_DIFF) < U64 <==> diff <= 66
  {
    Pow2Values();
    if diff <= 66 {
      Pow2Monotone(diff - MIN_DIFF, 61);
    } else {
      Pow2Monotone(62, diff - MIN_DIFF);
    }
  }

  lemma MultiplesWrapToZero(p: nat)
    ensures WrapU64(U64 * p) == 0
  {
    assert (0x1_0000_0000_0000_0000 * p) % 0x1_0000_0000_0000_0000 == 0;
  }

  /** From difficulty 69 on the wrapped power is zero, and so is the credit. */
  lemma ZeroFrom69(diff: nat)
    requires diff >= 69
    ensures HashpowerOf(diff) == 0
  {
    Pow2Values();
    Pow2Sum(64, diff - 69);
    var p := Pow2(diff - 69);
    assert Pow2(diff - MIN_DIFF) == U64 * p;
    MultiplesWrapToZero(p);
  }

  /** The credit is the intended one exactly up to difficulty 68. */
  lemma IntendedUpTo68(diff: nat)
    requires diff >= MIN_DIFF
    ensures HashpowerOf(diff) == Intended(diff) <==> diff <= 68
    ensures HashpowerOf(diff) > 0 <==> diff <= 68
  {
    Pow2Values();
    if diff <= 66 {
      NoOverflowUpTo66(diff);
      assert Pow2(diff - MIN_DIFF) < U64;
    } else if diff == 67 {
    } else if diff == 68 {
    } else {
      ZeroFrom69(diff);
      Pow2Monotone(64, diff - MIN_DIFF);
    }
  }

  /** A higher difficulty never lowers the credit, except across difficulty 69, where it falls to 0;
      the cap is reached exactly from difficulty 22 to 68. */
  lemma MonotoneAndCapped(low: nat, high: nat)
    requires MIN_DIFF <= low <= high
    ensures HashpowerOf(low) <= HashpowerOf(high) <==> high <= 68 || low >= 69
    ensures HashpowerOf(high) <= 655_360
    ensures HashpowerOf(high) == 655_360 <==> 22 <= high <= 68
  {
    IntendedUpTo68(low);
    IntendedUpTo68(high);
    if high <= 68 {
      Pow2Monotone(low - MIN_DIFF, high - MIN_DIFF);
      Pow2Values();
      if high >= 22 {
        Pow2Monotone(17, high - MIN_DIFF);
      } else {
        Pow2Monotone(high - MIN_DIFF, 16);
        assert Pow2(17) == 2 * Pow2(16);
      }
    }
  }
}
