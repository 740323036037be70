/** The exact supply: what every era pays, and the documented cap. */
module SupplyCap {
  import opened Basics
  import opened Chain
  import opened Conservation

  /** A reward and all its halvings, added up. */
  ghost function HalfSum(n: nat): nat {
    if n == 0 then 0 else n + HalfSum(n / 2)
  }

  lemma HalvedStep(n: u64, k: nat)
    ensures Halved(n, k + 1) == Halved(n, k) / 2
    ensures HalfSum(Halved(n, k)) == Halved(n, k) + HalfSum(Halved(n, k + 1))
  {
    DivTwice(n, Pow2(k));
    assert Pow2(k + 1) == 2 * Pow2(k);
  }

  lemma HalvedOnce(n: u64)
    ensures Halved(n, 0) == n
  {
    assert Pow2(0) == 1;
  }

  lemma RewardInEra(p: Params, k: nat, r: nat)
    requires p.halvingInterval > 0 && k < 64 && r < p.halvingInterval && k * p.halvingInterval + r < TWO64
    ensures RewardAt(p, k * p.halvingInterval + r) == Halved(p.initialReward, k)
  {
    hide Halved;
    DivUnique(k * p.halvingInterval + r, p.halvingInterval, k, r);
  }

  /** The rewards of the first k eras and r more heights. */
  lemma {:induction false} ErasPaid(p: Params, k: nat, r: nat)
    requires p.halvingInterval > 0 && k < 64 && r <= p.halvingInterval && k * p.halvingInterval + r <= TWO64
    ensures var n := p.initialReward;
            RewardsBelow(p, k * p.halvingInterval + r) + p.halvingInterval * HalfSum(Halved(n, k))
            == p.halvingInterval * HalfSum(n) + r * Halved(n, k)
    decreases k, r
  {
    hide Halved, HalfSum, RewardAt, RewardsBelow;
    var i, n := p.halvingInterval, p.initialReward;
    if k == 0 && r == 0 {
      HalvedOnce(n);
      NothingBelow(p);
    } else if r == 0 {
      assert k * i == (k - 1) * i + i;
      ErasPaid(p, k - 1, i);
      HalvedStep(n, k - 1);
      TimesSum(i, Halved(n, k - 1), HalfSum(Halved(n, k)));
    } else {
      ErasPaid(p, k, r - 1);
      RewardInEra(p, k, r - 1);
      OneMore(p, k * i + r);
      assert r * Halved(n, k) == (r - 1) * Halved(n, k) + Halved(n, k);
    }
  }

  lemma NothingBelow(p: Params)
    requires p.halvingInterval > 0
    ensures RewardsBelow(p, 0) == 0
  {
  }

  lemma OneMore(p: Params, h: nat)
    requires p.halvingInterval > 0 && 0 < h <= TWO64
    ensures RewardsBelow(p, h) == RewardsBelow(p, h - 1) + RewardAt(p, h - 1)
  {
  }

  lemma TimesSum(a: nat, x: nat, y: nat)
    ensures a * (x + y) == a * x + a * y
  {
  }

  lemma {:induction false} HalvedAway(n: u64, j: nat, k: nat)
    requires j <= k && Halved(n, j) == 0
    ensures Halved(n, k) == 0
    decreases k
  {
    if j >= k {
    } else {
      HalvedAway(n, j, k - 1);
      HalvedStep(n, k - 1);
    }
  }

  /** Once the reward is halved away, the supply has reached its cap and stays there. */
  lemma {:induction false} CapReached(p: Params, k: nat, h: nat)
    requires p.halvingInterval > 0 && k < 64 && Halved(p.initialReward, k) == 0
    requires k * p.halvingInterval <= h <= TWO64
    ensures RewardsBelow(p, h) == p.halvingInterval * HalfSum(p.initialReward)
    decreases h
  {
    hide Halved, RewardAt, RewardsBelow;
    if h == k * p.halvingInterval {
      ErasPaid(p, k, 0);
      assert HalfSum(0) == 0;
    } else {
      CapReached(p, k, h - 1);
      OneMore(p, h);
      NoReward(p, k, h - 1);
    }
  }

  lemma NoReward(p: Params, k: nat, h: u64)
    requires p.halvingInterval > 0 && Halved(p.initialReward, k) == 0 && k * p.halvingInterval <= h
    ensures RewardAt(p, h) == 0
  {
    hide Halved;
    EraAtLeast(h, p.halvingInterval, k);
    HalvedAway(p.initialReward, k, h / p.halvingInterval);
  }

  lemma EraAtLeast(h: nat, i: nat, k: nat)
    requires i > 0 && k * i <= h
    ensures h / i >= k
  {
    hide Quotient;
    var e := Quotient(h, i);
    NotBeyond(e, k, i);
    QuotientBounds(h, i);
    assert e >= k;
    assert e == h / i by { QuotientIs(h, i); }
  }

  lemma QuotientIs(n: nat, d: nat)
    requires d > 0
    ensures Quotient(n, d) == n / d
  {
  }

  lemma NotBeyond(e: nat, k: nat, i: nat)
    ensures e < k ==> (e + 1) * i <= k * i
  {
    if e < k { MulMono(i, e + 1, k); }
  }

  /** No height's rewards go above the cap. */
  lemma {:induction false} NeverAboveCap(p: Params, k: nat, h: nat)
    requires p.halvingInterval > 0 && k < 64 && Halved(p.initialReward, k) == 0
    requires h <= k * p.halvingInterval <= TWO64
    ensures RewardsBelow(p, h) <= p.halvingInterval * HalfSum(p.initialReward)
    decreases k * p.halvingInterval - h
  {
    hide Halved, RewardAt, RewardsBelow, HalfSum;
    if h == k * p.halvingInterval {
      CapReached(p, k, h);
    } else {
      NeverAboveCap(p, k, h + 1);
      OneMore(p, h + 1);
    }
  }

  /** The parameters the network runs with. */
  const MAINNET := Params(1727049600000, 1_0000_0000, 10080, 20, 360000, 1000, 300000)

  /** The documented cap of 20,159.99879040 coins, in bluglets. */
  const CAP: nat := 2015999879040

  /** Since genesis pays nothing, the ledger's supply ends one initial reward below the documented cap: it
      is never above that at any height and exactly that from height 272,159 on. */
  lemma DocumentedCap(height: u64)
    ensures Supply(MAINNET, height) <= CAP - MAINNET.initialReward
    ensures height + 1 >= 27 * MAINNET.halvingInterval ==> Supply(MAINNET, height) == CAP - MAINNET.initialReward
    ensures SoundParams(MAINNET)
  {
    hide RewardsBelow, RewardAt, HalfSum, Halved;
    MainnetSum();
    NothingAfterEra27();
    FirstReward();
    if height + 1 >= 27 * MAINNET.halvingInterval {
      CapReached(MAINNET, 27, height + 1);
    } else {
      NeverAboveCap(MAINNET, 27, height + 1);
    }
  }

  lemma MainnetSum()
    ensures HalfSum(MAINNET.initialReward) == 199999988
  {
    assert HalfSum(5) == 8;
    assert HalfSum(95) == 184;
    assert HalfSum(1525) == 3042;
    assert HalfSum(24414) == 48817;
    assert HalfSum(390625) == 781238;
    assert HalfSum(6250000) == 12499988;
    assert HalfSum(100000000) == 199999988;
  }

  lemma NothingAfterEra27()
    ensures Halved(MAINNET.initialReward, 27) == 0
  {
    assert Pow2(7) == 128;
    assert Pow2(14) == 16384;
    assert Pow2(21) == 2097152;
    assert Pow2(27) == 134217728;
  }

  lemma FirstReward()
    ensures RewardAt(MAINNET, 0) == MAINNET.initialReward
  {
    RewardInEra(MAINNET, 0, 0);
    HalvedOnce(MAINNET.initialReward);
  }

  /** In era k the reward is the initial one divided by 2^k and rounded down; from the 64th halving on there is
      none. */
  lemma RewardMeaning(p: Params, h: u64, k: nat)
    requires k * p.halvingInterval <= h < (k + 1) * p.halvingInterval
    ensures p.halvingInterval > 0
    ensures k >= 64 ==> RewardAt(p, h) == 0
    ensures k < 64 ==> var r := RewardAt(p, h); r * Pow2(k) <= p.initialReward < (r + 1) * Pow2(k)
  {
    hide Halved, Pow2;
    EraOf(h, p.halvingInterval, k);
    ShiftMeaning(p.initialReward, k);
  }

  lemma EraOf(h: nat, i: nat, k: nat)
    requires k * i <= h < (k + 1) * i
    ensures i > 0 && h / i == k
  {
    assert (k + 1) * i == k * i + i;
    DivUnique(h, i, k, h - k * i);
  }

  /** A shift to the right rounds down. */
  lemma ShiftMeaning(n: u64, k: nat)
    ensures Halved(n, k) * Pow2(k) <= n < (Halved(n, k) + 1) * Pow2(k)
  {
    hide Pow2;
    QuotientBounds(n, Pow2(k));
  }
}
