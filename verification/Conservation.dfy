/** No step creates or destroys coins: fees move, the coinbase adds exactly the reward,
    and the schedule keeps the whole supply far from the end of a uint64. */
module Conservation {
  import opened Basics
  import opened Chain
  import opened Ledger
  import opened Tree

  // ----- the sum of all balances -----

  ghost function Total(m: Accounts): nat {
    if m == map[] then 0
    else
      var a :| a in m;
      m[a].balance + Total(m - {a})
  }

  lemma {:induction false} TotalWithout(m: Accounts, a: Address)
    requires a in m
    ensures Total(m) == m[a].balance + Total(m - {a})
    decreases |m|
  {
    var b :| b in m && Total(m) == m[b].balance + Total(m - {b});
    if a == b {
    } else {
      var n, k := m - {b}, m - {a};
      TotalWithout(n, a);
      TotalWithout(k, b);
      assert n - {a} == k - {b};
    }
  }

  /** Writing one account moves the total by the change of that one balance. */
  lemma TotalAfterWrite(m: Accounts, a: Address, v: Account)
    ensures Total(m[a := v]) == Total(m) - Get(m, a).balance + v.balance
    ensures Get(m, a).balance <= Total(m)
  {
    TotalWithout(m[a := v], a);
    if a in m {
      TotalWithout(m, a);
      assert m[a := v] - {a} == m - {a};
    } else {
      assert m[a := v] - {a} == m;
    }
  }

  /** A transaction burns its fee and nothing else; while the total fits in 64 bits the
      balance-overflow panic cannot happen. */
  lemma TxConserves(m: Accounts, t: Tx)
    requires Total(m) < TWO64
    ensures ApplyTx(m, t) != Err(BalanceOverflow)
    ensures ApplyTx(m, t).Ok? ==> Total(ApplyTx(m, t).value) + t.fee == Total(m)
  {
    if CheckTx(m, t).None? {
      var d := Debit(m, t);
      TotalAfterWrite(m, t.from, d[t.from]);
      CreditAddsUp(d, t.to, t.amount);
    }
  }

  lemma CreditAddsUp(m: Accounts, a: Address, amount: u64)
    requires Total(m) + amount < TWO64
    ensures Credit(m, a, amount).Ok? && Total(Credit(m, a, amount).value) == Total(m) + amount
  {
    TotalAfterWrite(m, a, Get(m, a));
    if amount != 0 {
      TotalAfterWrite(m, a, Get(m, a).(balance := Get(m, a).balance + amount));
    }
  }

  ghost predicate Panics<T>(r: Result<T, LedgerError>) {
    r == Err(BalanceOverflow)
  }

  lemma StepConserves(c: Crypto, at: Progress, t: Tx)
    requires Total(at.accounts) + at.fees < TWO64
    ensures !Panics(StepBody(c, at, t)) && StepBody(c, at, t) != Err(FeeOverflow)
    ensures StepBody(c, at, t).Ok? ==>
              var next := StepBody(c, at, t).value;
              Total(next.accounts) + next.fees == Total(at.accounts) + at.fees
  {
    hide Verify;
    TxConserves(at.accounts, t);
    hide ApplyTx;
    if Verify(c, t).None? && ApplyTx(at.accounts, t).Ok? {
      assert at.fees + t.fee < TWO64;
      assert WrapU64(at.fees + t.fee) == at.fees + t.fee;
    } else if Verify(c, t).None? {
      NoFeeError(at.accounts, t);
    }
  }

  lemma NoFeeError(m: Accounts, t: Tx)
    ensures ApplyTx(m, t) != Err(FeeOverflow)
  {
  }

  /** The fees a body collects are exactly what its transactions took out of circulation. */
  lemma {:induction false} BodyConserves(c: Crypto, m: Accounts, txs: seq<Tx>)
    requires Total(m) < TWO64
    ensures !Panics(ApplyBody(c, m, txs)) && ApplyBody(c, m, txs) != Err(FeeOverflow)
    ensures ApplyBody(c, m, txs).Ok? ==>
              var at := ApplyBody(c, m, txs).value;
              Total(at.accounts) + at.fees == Total(m)
  {
    hide StepBody, Total;
    if |txs| == 0 {
    } else {
      var init := txs[..|txs| - 1];
      BodyConserves(c, m, init);
      if ApplyBody(c, m, init).Ok? {
        StepConserves(c, ApplyBody(c, m, init).value, txs[|txs| - 1]);
      }
    }
  }

  /** An accepted block adds its reward to the total; no addition on the way can wrap. */
  lemma BlockConserves(c: Crypto, p: Params, m: Accounts, b: Block)
    requires p.halvingInterval > 0 && Total(m) + RewardAt(p, b.height) < TWO64
    ensures !Panics(ApplyBlock(c, p, m, b))
    ensures ApplyBlock(c, p, m, b).Ok? ==>
              && Total(ApplyBlock(c, p, m, b).value) == Total(m) + RewardAt(p, b.height)
              && ApplyBody(c, m, b.txs[1..]).Ok?
              && RewardAt(p, b.height) + ApplyBody(c, m, b.txs[1..]).value.fees < TWO64
  {
    hide ApplyBody, Total, RewardAt, Verify;
    if |b.txs| > 0 && IsCoinbase(b.txs[0]) {
      BodyConserves(c, m, b.txs[1..]);
      if ApplyBody(c, m, b.txs[1..]).Ok? {
        CoinbaseConserves(c, p, ApplyBody(c, m, b.txs[1..]).value, b);
      }
    }
  }

  lemma CoinbaseConserves(c: Crypto, p: Params, at: Progress, b: Block)
    requires p.halvingInterval > 0 && |b.txs| > 0
    requires Total(at.accounts) + at.fees + RewardAt(p, b.height) < TWO64
    ensures !Panics(ApplyCoinbase(c, p, at, b))
    ensures ApplyCoinbase(c, p, at, b).Ok? ==>
              Total(ApplyCoinbase(c, p, at, b).value) == Total(at.accounts) + at.fees + RewardAt(p, b.height)
  {
    hide Total, RewardAt, Verify, Credit;
    var cb := b.txs[0];
    var want := RewardAt(p, b.height) + at.fees;
    assert WrapU64(want) == want;
    if cb.amount == want {
      CreditAddsUp(at.accounts, cb.to, want);
    }
  }

  // ----- the reward schedule -----

  /** Rewards of heights 0 to h - 1. */
  ghost function RewardsBelow(p: Params, h: nat): nat
    requires p.halvingInterval > 0 && h <= TWO64
  {
    if h == 0 then 0 else RewardsBelow(p, h - 1) + RewardAt(p, h - 1)
  }

  /** Everything ever paid out up to a height: genesis pays nothing. */
  ghost function Supply(p: Params, height: u64): int
    requires p.halvingInterval > 0
  {
    RewardsBelow(p, height + 1) - RewardAt(p, 0)
  }

  lemma HalvedTwice(n: u64, k: nat)
    ensures 2 * Halved(n, k + 1) <= Halved(n, k)
  {
    var d := Pow2(k);
    assert Pow2(k + 1) == 2 * d;
    calc {
      n / (2 * d);
      == { DivTwice(n, d); }
      (n / d) / 2;
    }
  }

  lemma DivTwice(n: nat, d: nat)
    requires d > 0
    ensures n / (2 * d) == (n / d) / 2
  {
    var q, r := n / d, n % d;
    assert n == q * d + r;
    var h, o := q / 2, q % 2;
    assert n == h * (2 * d) + (o * d + r) by {
      assert q * d == (2 * h + o) * d == h * (2 * d) + o * d;
    }
    assert 0 <= o * d + r < 2 * d;
    DivUnique(n, 2 * d, h, o * d + r);
  }

  lemma DivUnique(n: int, d: int, q: int, r: int)
    requires d > 0 && n == q * d + r && 0 <= r < d
    ensures n / d == q && n % d == r
  {
    var q', r' := n / d, n % d;
    var x := q' - q;
    assert x * d == r - r' by {
      assert n == q' * d + r';
      assert x * d == q' * d - q * d;
    }
    if x >= 1 {
      MulMono(d, 1, x);
    }
  }

  lemma QuotientBounds(n: nat, d: nat)
    requires d > 0
    ensures Quotient(n, d) * d <= n < (Quotient(n, d) + 1) * d
  {
    var q := n / d;
    assert n == q * d + n % d;
    assert (q + 1) * d == q * d + d;
  }

  /** Era k's reward, defined past the 64th halving too. */
  ghost function EraReward(p: Params, k: nat): nat {
    if k >= 64 then 0 else Halved(p.initialReward, k)
  }

  /** An upper bound on what is still to be paid from height h on. */
  ghost function Remaining(p: Params, h: nat): int
    requires p.halvingInterval > 0
  {
    (2 * p.halvingInterval - h % p.halvingInterval) * EraReward(p, h / p.halvingInterval)
  }

  lemma {:induction false} ScheduleBound(p: Params, h: nat)
    requires p.halvingInterval > 0 && h < TWO64
    ensures RewardsBelow(p, h) + Remaining(p, h) <= 2 * p.halvingInterval * p.initialReward
  {
    if h == 0 {
      FirstEra(p);
    } else {
      ScheduleBound(p, h - 1);
      RewardIsEraReward(p, h - 1);
      ScheduleStep(p, h);
      hide Remaining, EraReward, RewardAt;
    }
  }

  lemma FirstEra(p: Params)
    requires p.halvingInterval > 0
    ensures RewardAt(p, 0) == EraReward(p, 0) == p.initialReward
    ensures Remaining(p, 0) == 2 * p.halvingInterval * p.initialReward
  {
    var i := p.halvingInterval;
    assert 0 / i == 0 && 0 % i == 0;
    assert Halved(p.initialReward, 0) == p.initialReward;
  }

  lemma RewardIsEraReward(p: Params, h: u64)
    requires p.halvingInterval > 0
    ensures RewardAt(p, h) == EraReward(p, h / p.halvingInterval)
  {
  }

  lemma ScheduleStep(p: Params, h: nat)
    requires p.halvingInterval > 0 && 0 < h
    ensures Remaining(p, h) + EraReward(p, (h - 1) / p.halvingInterval) <= Remaining(p, h - 1)
  {
    hide EraReward, Remaining;
    var k, r := (h - 1) / p.halvingInterval, (h - 1) % p.halvingInterval;
    EuclidHere(h - 1, p.halvingInterval);
    RemainingAt(p, h - 1, k, r);
    if r + 1 < p.halvingInterval {
      RemainingAt(p, h, k, r + 1);
      OneReward(p.halvingInterval, r, EraReward(p, k));
    } else {
      NextTimes(k, p.halvingInterval);
      RemainingAt(p, h, k + 1, 0);
      NextEra(p, k);
      TwiceNext(p.halvingInterval, EraReward(p, k + 1), EraReward(p, k));
    }
  }

  lemma EuclidHere(n: nat, d: nat)
    requires d > 0
    ensures n == n / d * d + n % d && n % d < d
  {
  }

  lemma NextTimes(k: nat, i: nat)
    ensures k * i + i == (k + 1) * i
  {
  }

  lemma RemainingAt(p: Params, h: nat, k: nat, r: nat)
    requires p.halvingInterval > 0 && h == k * p.halvingInterval + r && r < p.halvingInterval
    ensures Remaining(p, h) == (2 * p.halvingInterval - r) * EraReward(p, k)
  {
    hide EraReward;
    DivUnique(h, p.halvingInterval, k, r);
  }

  lemma OneReward(i: nat, r: nat, e: nat)
    ensures (2 * i - (r + 1)) * e + e == (2 * i - r) * e
  {
  }

  lemma TwiceNext(i: nat, next: nat, e: nat)
    requires i > 0 && 2 * next <= e
    ensures (2 * i - 0) * next + e <= (2 * i - (i - 1)) * e
  {
    assert (2 * i - 0) * next == i * (2 * next);
    MulMono(i, 2 * next, e);
    assert (2 * i - (i - 1)) * e == (i + 1) * e == i * e + e;
  }

  lemma NextEra(p: Params, k: nat)
    ensures 2 * EraReward(p, k + 1) <= EraReward(p, k)
  {
    if k + 1 < 64 { HalvedTwice(p.initialReward, k); }
  }

  lemma MulMono(a: nat, b: nat, c: nat)
    requires b <= c
    ensures a * b <= a * c
  {
  }

  /** Parameters under which the whole schedule fits in 64 bits. */
  predicate SoundParams(p: Params) {
    p.halvingInterval > 0 && 2 * p.initialReward * p.halvingInterval <= TWO64
  }

  lemma RewardWithinRemaining(p: Params, h: u64)
    requires p.halvingInterval > 0
    ensures RewardAt(p, h) <= Remaining(p, h)
  {
    var i := p.halvingInterval;
    RewardIsEraReward(p, h);
    hide EraReward, RewardAt;
    MulMono(EraReward(p, h / i), 1, 2 * i - h % i);
  }

  lemma MulSwap(a: int, b: int)
    ensures 2 * a * b == 2 * b * a
  {
  }

  /** At every height the supply stays below twice the first era's payout, less the unpaid
      genesis reward; with such parameters it fits in 64 bits. */
  lemma SupplyBound(p: Params, height: u64)
    requires p.halvingInterval > 0
    ensures 0 <= Supply(p, height) <= 2 * p.initialReward * p.halvingInterval - p.initialReward
    ensures SoundParams(p) ==> Supply(p, height) < TWO64
  {
    ScheduleBound(p, height);
    RewardWithinRemaining(p, height);
    FirstEra(p);
    RewardsAtLeastFirst(p, height + 1);
    MulSwap(p.initialReward, p.halvingInterval);
    assert RewardsBelow(p, height + 1) == RewardsBelow(p, height) + RewardAt(p, height);
    hide Remaining, EraReward, RewardAt, RewardsBelow;
    if p.initialReward == 0 {
      assert 2 * p.initialReward * p.halvingInterval == 0;
    }
  }

  lemma {:induction false} RewardsAtLeastFirst(p: Params, h: nat)
    requires p.halvingInterval > 0 && 0 < h <= TWO64
    ensures RewardsBelow(p, h) >= RewardAt(p, 0)
  {
    if h <= 1 {
    } else {
      RewardsAtLeastFirst(p, h - 1);
    }
  }

  // ----- along a chain -----

  ghost predicate HeightsFromGenesis(path: seq<Entry>) {
    forall i :: 0 <= i < |path| ==> path[i].block.height == i
  }

  lemma TotalOfNothing()
    ensures Total(map[]) == 0
  {
  }

  lemma SupplyStep(p: Params, h: u64)
    requires p.halvingInterval > 0 && 0 < h
    ensures Supply(p, h) == Supply(p, h - 1) + RewardAt(p, h)
  {
    hide RewardAt;
    assert RewardsBelow(p, h + 1) == RewardsBelow(p, h) + RewardAt(p, h);
  }

  lemma SupplyAtGenesis(p: Params)
    requires p.halvingInterval > 0
    ensures Supply(p, 0) == 0
  {
    hide RewardAt;
    assert RewardsBelow(p, 1) == RewardsBelow(p, 0) + RewardAt(p, 0);
  }

  /** On every chain the balances add up to exactly the rewards of its blocks above genesis, and
      nothing on the way can panic. */
  lemma {:induction false} ReplayConserves(c: Crypto, p: Params, path: seq<Entry>)
    requires SoundParams(p) && |path| > 0 && HeightsFromGenesis(path)
    ensures !Panics(Replay(c, p, path))
    ensures Replay(c, p, path).Ok? ==> Total(Replay(c, p, path).value) == Supply(p, |path| - 1) < TWO64
  {
    hide ApplyBlock, RewardAt, Supply, Total;
    var last, before := path[|path| - 1], path[..|path| - 1];
    assert last.block.height == |path| - 1;
    SupplyBound(p, |path| - 1);
    if |path| == 1 {
      TotalOfNothing();
      SupplyAtGenesis(p);
      assert before == [];
    } else {
      ReplayConserves(c, p, before);
      SupplyStep(p, |path| - 1);
      if Replay(c, p, before).Ok? {
        BlockConserves(c, p, Replay(c, p, before).value, last.block);
      }
    }
  }
}
