/** What the retarget arithmetic means, exactly when its 64-bit products are safe, and that it is monotone. */
module RetargetRule {
  import opened Basics
  import opened Chain
  import opened Conservation
  import opened Tree

  const MAX_DIFFICULTY: nat := TWO64 - 1

  function Min(a: int, b: int): int {
    if a < b then a else b
  }

  function Max(a: int, b: int): int {
    if a < b then b else a
  }

  /** The proportional change, a quarter to four times, at least 1 and at most what 64 bits hold. */
  function Ideal(d: nat, expected: nat, actual: nat): int
    requires actual > 0
  {
    Max(1, Min(MAX_DIFFICULTY, Min(Max(Quotient(d * expected, actual), d / 4), 4 * d)))
  }

  lemma QuotientAtLeast(n: nat, d: nat, k: nat)
    requires d > 0 && n >= k * d
    ensures Quotient(n, d) >= k
  {
    var q, r := n / d, n % d;
    var x := k - q;
    assert n == q * d + r;
    assert x * d == k * d - q * d;
    if x >= 1 { MulMono(d, 1, x); }
  }

  lemma QuotientAtMost(n: nat, d: nat, k: nat)
    requires d > 0 && n < (k + 1) * d
    ensures Quotient(n, d) <= k
  {
    var q, r := n / d, n % d;
    var x := q - k;
    assert n == q * d + r;
    assert x * d == q * d - k * d && (k + 1) * d == k * d + d;
    if x >= 1 { MulMono(d, 1, x); }
  }

  lemma FasterThanFour(d: nat, e: nat, a: nat)
    requires a > 0 && 4 * a <= e
    ensures Quotient(d * e, a) >= 4 * d
  {
    MulMono(d, 4 * a, e);
    assert d * (4 * a) == (4 * d) * a;
    QuotientAtLeast(d * e, a, 4 * d);
  }

  lemma SlowerThanFour(d: nat, e: nat, a: nat)
    requires a > 0 && a >= 4 * e
    ensures Quotient(d * e, a) <= d / 4
  {
    var k := d / 4;
    assert d <= 4 * k + 3;
    MulMono(d, 4 * e, a);
    assert 4 * (d * e) == d * (4 * e);
    assert 4 * (d * e) <= d * a;
    MulMono(a, d, 4 * k + 3);
    assert a * (4 * k + 3) < a * (4 * (k + 1)) by { assert a * (4 * (k + 1)) == a * (4 * k + 3) + a; }
    assert a * d == d * a && a * (4 * (k + 1)) == 4 * ((k + 1) * a);
    QuotientAtMost(d * e, a, k);
  }

  lemma NotFasterThanFour(d: nat, e: nat, a: nat)
    requires a > 0 && e <= 4 * a
    ensures Quotient(d * e, a) <= 4 * d
  {
    MulMono(d, e, 4 * a);
    assert d * (4 * a) == (4 * d) * a;
    assert (4 * d + 1) * a == (4 * d) * a + a;
    QuotientAtMost(d * e, a, 4 * d);
  }

  lemma NotSlowerThanFour(d: nat, e: nat, a: nat)
    requires a > 0 && a <= 4 * e
    ensures Quotient(d * e, a) >= d / 4
  {
    var k := d / 4;
    MulMono(e, 4 * k, d);
    assert e * (4 * k) == k * (4 * e) && e * d == d * e;
    MulMono(k, a, 4 * e);
    QuotientAtLeast(d * e, a, k);
  }

  /** The time an interval should take: the target time of a block times the blocks of an interval, as an int64,
      and 1 where that is not positive. */
  lemma ExpectedIs(p: Params)
    ensures var e := WrapI64(p.targetBlockTime * p.blocksPerRetarget); Expected(p) == if e > 0 then e else 1
  {
    WrapProduct(p.targetBlockTime, p.blocksPerRetarget);
  }

  /** Wrapping a factor before multiplying changes nothing. */
  lemma WrapProduct(a: int, b: int)
    ensures WrapI64(a * WrapI64(b)) == WrapI64(a * b)
  {
    WrapMeaning(b);
    var k := (b - WrapI64(b)) / TWO64;
    assert b - WrapI64(b) == k * TWO64;
    assert a * b == a * WrapI64(b) + (a * k) * TWO64 by {
      assert a * (WrapI64(b) + k * TWO64) == a * WrapI64(b) + a * (k * TWO64);
      assert a * (k * TWO64) == (a * k) * TWO64;
    }
    WrapShift(a * WrapI64(b), a * k);
  }

  /** The ideal change without its formula: an interval four times too fast or faster multiplies by four, one four
      times too slow or slower divides by four, and in between the new difficulty is to the old as the expected
      time is to the elapsed; at least 1 and at most what 64 bits hold. */
  lemma IdealMeaning(d: nat, e: nat, a: nat)
    requires d > 0 && e > 0 && a > 0
    ensures 4 * a <= e ==> Ideal(d, e, a) == if 4 * d < TWO64 then 4 * d else TWO64 - 1
    ensures a >= 4 * e && d < TWO64 ==> Ideal(d, e, a) == if d >= 4 then d / 4 else 1
    ensures e < 4 * a && a < 4 * e ==>
              var r := Ideal(d, e, a);
              && 1 <= r < TWO64
              && (1 < r ==> r * a <= d * e) && (r < TWO64 - 1 ==> d * e < (r + 1) * a)
  {
    hide Quotient;
    if 4 * a <= e {
      FasterThanFour(d, e, a);
    } else if a >= 4 * e {
      SlowerThanFour(d, e, a);
    } else {
      QuotientBounds(d * e, a);
      NotFasterThanFour(d, e, a);
      NotSlowerThanFour(d, e, a);
      IdealBetween(d, e, a);
    }
  }

  lemma IdealBetween(d: nat, e: nat, a: nat)
    requires d > 0 && e > 0 && a > 0 && d / 4 <= Quotient(d * e, a) <= 4 * d
    requires var q := Quotient(d * e, a); q * a <= d * e < (q + 1) * a
    ensures var r := Ideal(d, e, a);
            1 <= r < TWO64 && (1 < r ==> r * a <= d * e) && (r < TWO64 - 1 ==> d * e < (r + 1) * a)
  {
    hide Quotient;
    var q, r := Quotient(d * e, a), Ideal(d, e, a);
    if r < q { MulMono(a, r, q); assert a * r == r * a && a * q == q * a; }
    if q < r { MulMono(a, q + 1, r + 1); assert a * (q + 1) == (q + 1) * a && a * (r + 1) == (r + 1) * a; }
  }

  /** An interval that took exactly the expected time leaves the difficulty as it was. */
  lemma IdealAtPace(d: u64, e: nat)
    requires d > 0 && e > 0
    ensures Ideal(d, e, e) == d
  {
    hide Quotient;
    assert (d + 1) * e == d * e + e;
    QuotientAtLeast(d * e, e, d);
    QuotientAtMost(d * e, e, d);
  }

  /** The fast-block branch is taken exactly when the elapsed time is not positive or its fourfold,
      as an int64, is below the expected time. */
  predicate TakenAsFast(p: Params, actual: i64) {
    actual <= 0 || WrapI64(actual * 4) < Expected(p)
  }

  /** The retarget, with the expected time known to be safe. */
  lemma RetargetBranches(p: Params, d: u64, actual: i64)
    requires actual > 0 && 4 * Expected(p) < TWO63
    ensures Retarget(p, d, actual)
         == Max(1, Min(MAX_DIFFICULTY, if TakenAsFast(p, actual) then 4 * d
                                       else if actual > 4 * Expected(p) then d / 4
                                       else Quotient(d * Expected(p), actual)))
  {
    hide Expected, Quotient, WrapI64;
    WrapSigned(4 * Expected(p));
  }

  lemma WrapSigned(n: int)
    requires -TWO63 <= n < TWO63
    ensures WrapI64(n) == n
  {
  }

  /** The retarget is the ideal one, for every difficulty a block can have, exactly when the fourfold elapsed time
      is not mistaken for a short one by wrapping around; and when it is, the difficulty rises fourfold. */
  lemma RetargetMeaning(p: Params, d: u64, actual: i64)
    requires d > 0 && actual > 0
    requires var e := WrapI64(p.targetBlockTime * p.blocksPerRetarget); 4 * (if e > 0 then e else 1) < TWO63
    ensures var w := WrapI64(p.targetBlockTime * p.blocksPerRetarget);
            var e: nat := if w > 0 then w else 1;
            && (Retarget(p, d, actual) == Ideal(d, e, actual) <==> 4 * actual < e || WrapI64(4 * actual) >= e)
            && (WrapI64(4 * actual) < e ==> Retarget(p, d, actual) == if 4 * d < TWO64 then 4 * d else TWO64 - 1)
  {
    hide Expected, Retarget, Quotient, TakenAsFast, WrapI64;
    ExpectedIs(p);
    var e := Expected(p);
    RetargetBranches(p, d, actual);
    FastMeans(p, actual);
    if 4 * actual < e {
      ShortIsFast(p, actual);
      FasterThanFour(d, e, actual);
    } else if TakenAsFast(p, actual) {
      WrappedIsSlow(p, actual);
      StrictlyLess(d, e, actual);
    } else {
      if actual > 4 * e { SlowerThanFour(d, e, actual); }
      else { NotFasterThanFour(d, e, actual); NotSlowerThanFour(d, e, actual); }
    }
  }

  lemma FastMeans(p: Params, actual: i64)
    requires actual > 0
    ensures TakenAsFast(p, actual) <==> WrapI64(4 * actual) < Expected(p)
  {
    hide Expected;
    assert 4 * actual == actual * 4;
  }

  lemma ShortIsFast(p: Params, actual: i64)
    requires actual > 0 && 4 * actual < Expected(p)
    ensures TakenAsFast(p, actual)
  {
    hide Expected;
    WrapSigned(actual * 4);
  }

  lemma WrappedIsSlow(p: Params, actual: i64)
    requires actual > 0 && 4 * actual >= Expected(p) && TakenAsFast(p, actual) && 4 * Expected(p) < TWO63
    ensures actual > Expected(p)
  {
    hide Expected;
    if actual * 4 < TWO63 { WrapSigned(actual * 4); }
  }

  lemma StrictlyLess(d: nat, e: nat, a: nat)
    requires d > 0 && 0 < e < a
    ensures Quotient(d * e, a) < d
  {
    MulMono(d, e + 1, a);
    assert d * (e + 1) == d * e + d;
    assert ((d - 1) + 1) * a == d * a;
    QuotientAtMost(d * e, a, d - 1);
  }

  /** Elapsed times short enough for their fourfold to fit are never mistaken. */
  lemma SafeElapsed(p: Params, d: u64, actual: i64)
    requires d > 0 && actual > 0 && 4 * actual < TWO63
    requires var e := WrapI64(p.targetBlockTime * p.blocksPerRetarget); 4 * (if e > 0 then e else 1) < TWO63
    ensures var e := WrapI64(p.targetBlockTime * p.blocksPerRetarget);
            Retarget(p, d, actual) == Ideal(d, if e > 0 then e else 1, actual)
  {
    hide Expected, Retarget, Ideal;
    WrapSigned(4 * actual);
    RetargetMeaning(p, d, actual);
  }

  /** Past that, a very long pause can be taken for a very fast interval: with the default parameters, on any
      chain tip of difficulty 100 right below a retarget height, 2^61 milliseconds since the anchor raise the
      difficulty fourfold where the rule asks for a quarter. */
  lemma LongPauseMistaken(tip: Block, anchor: Block)
    requires tip.difficulty == 100 && tip.height % 20 == 19 && tip.height < TWO64 - 1
    requires tip.time - anchor.time == 0x2000_0000_0000_0000
    ensures var p := Params(1727049600000, 100000000, 10080, 20, 360000, 1000, 300000);
            NextDifficulty(p, Some(tip), Some(anchor)) == 400 && Ideal(100, 7200000, tip.time - anchor.time) == 25
  {
    hide Retarget, Expected, Ideal;
    PauseOf2To61();
  }

  lemma PauseOf2To61()
    ensures var p := Params(1727049600000, 100000000, 10080, 20, 360000, 1000, 300000);
            Retarget(p, 100, 0x2000_0000_0000_0000) == 400 && Ideal(100, 7200000, 0x2000_0000_0000_0000) == 25
  {
    hide Quotient;
    var p := Params(1727049600000, 100000000, 10080, 20, 360000, 1000, 300000);
    assert Expected(p) == 7200000;
    assert WrapI64(0x2000_0000_0000_0000 * 4) < 0;
    SlowerThanFour(100, 7200000, 0x2000_0000_0000_0000);
  }

  lemma IdealAntitone(d: nat, e: nat, a1: nat, a2: nat)
    requires 0 < a1 <= a2
    ensures Ideal(d, e, a1) >= Ideal(d, e, a2)
  {
    hide Quotient;
    var q := Quotient(d * e, a2);
    QuotientBounds(d * e, a2);
    MulMono(q, a1, a2);
    QuotientAtLeast(d * e, a1, q);
  }

  /** A higher starting difficulty never leads to a lower one, for every elapsed time, wrapped or not. */
  lemma MonotoneInDifficulty(p: Params, d1: u64, d2: u64, actual: i64)
    requires d1 <= d2
    ensures Retarget(p, d1, actual) <= Retarget(p, d2, actual)
  {
    hide Expected, WrapI64, Quotient;
    if actual > 0 {
      QuotientMonotone(d1, d2, Expected(p), actual);
    }
  }

  lemma QuotientMonotone(d1: nat, d2: nat, e: nat, a: nat)
    requires a > 0 && d1 <= d2
    ensures Quotient(d1 * e, a) <= Quotient(d2 * e, a)
  {
    hide Quotient;
    MulMono(e, d1, d2);
    assert e * d1 == d1 * e && e * d2 == d2 * e;
    QuotientBounds(d1 * e, a);
    QuotientAtLeast(d2 * e, a, Quotient(d1 * e, a));
  }

  /** A longer interval never leads to a higher difficulty, across all branches and through zero and
      negative times, as long as nothing wraps. */
  lemma AntitoneInElapsed(p: Params, d: u64, a1: i64, a2: i64)
    requires a1 <= a2 && 4 * a2 < TWO63
    requires var e := WrapI64(p.targetBlockTime * p.blocksPerRetarget); 4 * (if e > 0 then e else 1) < TWO63
    ensures Retarget(p, d, a1) >= Retarget(p, d, a2)
  {
    hide Expected, Retarget, Ideal;
    ExpectedIs(p);
    if d == 0 {
      ZeroBecomesOne(p, a1);
      ZeroBecomesOne(p, a2);
    } else if a1 > 0 {
      SafeElapsed(p, d, a1);
      SafeElapsed(p, d, a2);
      IdealAntitone(d, Expected(p), a1, a2);
    } else {
      NoTimeIsFast(p, d, a1);
      if a2 > 0 {
        SafeElapsed(p, d, a2);
        IdealAtMost(d, Expected(p), a2);
      } else {
        NoTimeIsFast(p, d, a2);
      }
    }
  }

  lemma NoTimeIsFast(p: Params, d: u64, actual: i64)
    requires actual <= 0
    ensures Retarget(p, d, actual) == Max(1, Min(MAX_DIFFICULTY, 4 * d))
  {
    hide Expected, Quotient, WrapI64;
  }

  lemma ZeroBecomesOne(p: Params, actual: i64)
    ensures Retarget(p, 0, actual) == 1
  {
    hide Expected, WrapI64;
    if actual > 0 { assert Quotient(0, actual) == 0; }
  }

  lemma IdealAtMost(d: nat, e: nat, a: nat)
    requires a > 0
    ensures Ideal(d, e, a) <= Max(1, Min(MAX_DIFFICULTY, 4 * d))
  {
    hide Quotient;
  }

  // ----- along a chain -----

  /** Every block's difficulty follows from its ancestors alone: at multiples of the interval it is retargeted
      over the time from the block one interval below to its parent, elsewhere it is its parent's. */
  lemma DifficultyAlongChain(c: Crypto, p: Params, path: seq<Entry>, i: nat)
    requires ChainOk(c, p, path) && HeightsFromGenesis(path) && 0 < i < |path|
    ensures var b := p.blocksPerRetarget;
            path[i].block.difficulty
            == if b > 0 && i % b == 0 && i >= b
               then Retarget(p, path[i - 1].block.difficulty, WrapI64(path[i - 1].block.time - path[i - b].block.time))
               else path[i - 1].block.difficulty
  {
    hide Retarget, MeetsTarget, BlockHash, GenesisHash, WrapI64, NextDifficulty, AnchorOf, MerkleRoot;
    assert Extends(c, p, path[..i], path[i]);
    assert path[i].block.height == i;
    var before := path[..i];
    assert before[i - 1] == path[i - 1];
    RuleAfter(p, before);
    if 0 < p.blocksPerRetarget <= i {
      assert before[i - p.blocksPerRetarget] == path[i - p.blocksPerRetarget];
    }
  }

  lemma RuleAfter(p: Params, before: seq<Entry>)
    requires 0 < |before| < TWO64 && before[|before| - 1].block.height == |before| - 1
    ensures var b, n, parent := p.blocksPerRetarget, |before|, before[|before| - 1].block;
            NextDifficulty(p, Some(parent), AnchorOf(p, before))
            == if b > 0 && n % b == 0 && n >= b
               then Retarget(p, parent.difficulty, WrapI64(parent.time - before[n - b].block.time))
               else parent.difficulty
  {
    hide Retarget, WrapI64, WrapU64;
    HeightFits(|before|);
  }

  lemma HeightFits(h: u64)
    ensures WrapU64(h) == h
  {
  }

  lemma {:induction false} TimesGrow(c: Crypto, p: Params, path: seq<Entry>, i: nat, j: nat)
    requires ChainOk(c, p, path) && i < j < |path|
    ensures path[i].block.time < path[j].block.time
    decreases j
  {
    hide BlockHash, GenesisHash, MeetsTarget, NextDifficulty, MerkleRoot, AnchorOf;
    assert Extends(c, p, path[..j], path[j]);
    assert path[..j][j - 1] == path[j - 1];
    if i >= j - 1 {
    } else {
      TimesGrow(c, p, path, i, j - 1);
    }
  }

  /** On a chain whose interval took less than 2^61 milliseconds the retarget is the ideal one; an interval
      of a single block spans no time and counts as the fastest. */
  lemma RetargetAlongChain(c: Crypto, p: Params, path: seq<Entry>, i: nat)
    requires ChainOk(c, p, path) && HeightsFromGenesis(path)
    requires var e := WrapI64(p.targetBlockTime * p.blocksPerRetarget); 4 * (if e > 0 then e else 1) < TWO63
    requires 0 < p.blocksPerRetarget <= i < |path| && i % p.blocksPerRetarget == 0
    requires 4 * (path[i - 1].block.time - path[i - p.blocksPerRetarget].block.time) < TWO63
    ensures var elapsed := path[i - 1].block.time - path[i - p.blocksPerRetarget].block.time;
            var before, e := path[i - 1].block.difficulty, WrapI64(p.targetBlockTime * p.blocksPerRetarget);
            if p.blocksPerRetarget == 1 then elapsed == 0
              && path[i].block.difficulty == Max(1, Min(MAX_DIFFICULTY, 4 * before))
            else elapsed > 0 && path[i].block.difficulty == Ideal(before, if e > 0 then e else 1, elapsed)
  {
    hide Retarget, Ideal, BlockHash, GenesisHash, WellFormed, NextDifficulty, AnchorOf, Target, WrapI64, Expected;
    DifficultyAlongChain(c, p, path, i);
    if i > 1 { assert Extends(c, p, path[..i - 1], path[i - 1]); }
    if p.blocksPerRetarget == 1 {
      WrapSigned(0);
      NoTimeIsFast(p, path[i - 1].block.difficulty, 0);
      return;
    }
    TimesGrow(c, p, path, i - p.blocksPerRetarget, i - 1);
    var elapsed := path[i - 1].block.time - path[i - p.blocksPerRetarget].block.time;
    WrapSigned(elapsed);
    SafeElapsed(p, path[i - 1].block.difficulty, elapsed);
  }

  /** A chain that keeps pace keeps its difficulty: an interval that took the target time of a block times the
      blocks of an interval is followed by the difficulty of the block before. */
  lemma SteadyPace(c: Crypto, p: Params, path: seq<Entry>, i: nat)
    requires ChainOk(c, p, path) && HeightsFromGenesis(path)
    requires 1 < p.blocksPerRetarget <= i < |path| && i % p.blocksPerRetarget == 0
    requires path[i - 1].block.time - path[i - p.blocksPerRetarget].block.time
             == p.targetBlockTime * p.blocksPerRetarget
    requires 4 * (p.targetBlockTime * p.blocksPerRetarget) < TWO63
    ensures path[i].block.difficulty == path[i - 1].block.difficulty
  {
    hide ChainOk, HeightsFromGenesis, Ideal, WrapI64;
    var e := p.targetBlockTime * p.blocksPerRetarget;
    TimesGrow(c, p, path, i - p.blocksPerRetarget, i - 1);
    WrapSigned(e);
    RetargetAlongChain(c, p, path, i);
    DifficultyThere(c, p, path, i - 1);
    IdealAtPace(path[i - 1].block.difficulty, e);
  }

  lemma DifficultyThere(c: Crypto, p: Params, path: seq<Entry>, i: nat)
    requires ChainOk(c, p, path) && 0 < i < |path|
    ensures path[i].block.difficulty > 0
  {
    hide BlockHash, GenesisHash, WellFormed, NextDifficulty, AnchorOf, Target;
    assert Extends(c, p, path[..i], path[i]);
  }
}
