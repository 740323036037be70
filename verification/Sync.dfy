/** The sync protocol on values: what a locator lists, what a peer answers, and why each round
    picks up exactly where the last one ended. */
module Sync {
  import opened Basics
  import opened Chain
  import opened Ledger
  import opened Conservation
  import opened Tree
  import opened NodeRules

  const SYNC_BATCH := 500
  const SYNC_TX_BUDGET := 5000
  const DENSE := 10

  // ----- locators -----

  /** How far to go back after the entry that makes the list n long. */
  function NextStep(n: nat, step: nat): nat {
    if n > DENSE then 2 * step else step
  }

  /** The heights a locator lists, from h down to genesis. */
  function Heights(h: nat, n: nat, step: nat): (hs: seq<nat>)
    requires step >= 1
    ensures |hs| > 0 && hs[0] == h && hs[|hs| - 1] == 0
    ensures forall i :: 0 <= i < |hs| - 1 ==> hs[i] > hs[i + 1]
    decreases h
  {
    if h == 0 then [0]
    else
      var s := NextStep(n + 1, step);
      [h] + Heights(if h <= s then 0 else h - s, n + 1, s)
  }

  /** The hashes at the heights a locator lists from h on. */
  function LocatorFrom(path: seq<Entry>, h: nat, n: nat, step: nat): (out: seq<Hash>)
    requires h < |path| && step >= 1
    ensures |out| > 0 && out[0] == path[h].hash && out[|out| - 1] == path[0].hash
  {
    var hs := Heights(h, n, step);
    HeightsBelow(h, n, step);
    seq(|hs|, i requires 0 <= i < |hs| => path[hs[i]].hash)
  }

  /** A locator for a branch: its tip, then ancestors, densely at first and then at doubling gaps. */
  function LocatorOf(path: seq<Entry>): (out: seq<Hash>)
    requires |path| > 0
    ensures |out| > 0 && out[0] == path[|path| - 1].hash && out[|out| - 1] == path[0].hash
  {
    LocatorFrom(path, |path| - 1, 0, 1)
  }

  lemma LocatorUnfold(path: seq<Entry>, h: nat, n: nat, step: nat)
    requires h < |path| && step >= 1
    ensures LocatorFrom(path, h, n, step)
         == [path[h].hash] + if h == 0 then [] else
                               var s := NextStep(n + 1, step);
                               LocatorFrom(path, if h <= s then 0 else h - s, n + 1, s)
  {
  }

  lemma {:induction false} HeightsBelow(h: nat, n: nat, step: nat)
    requires step >= 1
    ensures forall i :: 0 <= i < |Heights(h, n, step)| ==> Heights(h, n, step)[i] <= h
    decreases h
  {
    if h == 0 {
    } else {
      var s := NextStep(n + 1, step);
      HeightsBelow(if h <= s then 0 else h - s, n + 1, s);
    }
  }

  /** How far apart the entries of a locator are: ten single steps, then gaps of 2, 4, 8, ... */
  function Gap(i: nat): nat {
    if i < 10 then 1 else Pow2(i - 9)
  }

  lemma {:induction false} HeightGaps(h: nat, n: nat, step: nat, i: nat)
    requires step == (if n <= 10 then 1 else Pow2(n - 10)) && i + 1 < |Heights(h, n, step)|
    ensures var hs := Heights(h, n, step); hs[i + 1] == if hs[i] <= Gap(n + i) then 0 else hs[i] - Gap(n + i)
    decreases i
  {
    hide Heights, NextStep, Gap, Pow2;
    HeightsUnfold(h, n, step);
    GapIsStep(n, step);
    if i == 0 {
    } else {
      var s := NextStep(n + 1, step);
      HeightGaps(if h <= s then 0 else h - s, n + 1, s, i - 1);
    }
  }

  lemma HeightsUnfold(h: nat, n: nat, step: nat)
    requires step >= 1
    ensures NextStep(n + 1, step) >= 1
    ensures Heights(h, n, step)
         == if h == 0 then [0]
            else
              var s := NextStep(n + 1, step);
              [h] + Heights(if h <= s then 0 else h - s, n + 1, s)
  {
  }

  lemma GapIsStep(n: nat, step: nat)
    requires step == if n <= 10 then 1 else Pow2(n - 10)
    ensures NextStep(n + 1, step) == Gap(n)
    ensures NextStep(n + 1, step) == if n + 1 <= 10 then 1 else Pow2(n + 1 - 10)
  {
    if n == 10 { assert Pow2(1) == 2 * Pow2(0); }
  }

  /** A locator written out: it starts at the branch's end, goes back ten blocks one by one and then by doubling
      gaps, and its last entry is genesis. */
  lemma LocatorWrittenOut(path: seq<Entry>, hs: seq<nat>)
    requires |path| > 0 && hs == Heights(|path| - 1, 0, 1)
    ensures |hs| > 0 && hs[0] == |path| - 1 && hs[|hs| - 1] == 0
    ensures forall i :: 0 <= i < |hs| - 1 ==> hs[i + 1] == if hs[i] <= Gap(i) then 0 else hs[i] - Gap(i)
    ensures |LocatorOf(path)| == |hs|
    ensures forall i :: 0 <= i < |hs| ==> hs[i] < |path| && LocatorOf(path)[i] == path[hs[i]].hash
  {
    HeightsBelow(|path| - 1, 0, 1);
    hide Heights;
    forall i | 0 <= i < |hs| - 1 ensures hs[i + 1] == if hs[i] <= Gap(i) then 0 else hs[i] - Gap(i) {
      HeightGaps(|path| - 1, 0, 1, i);
    }
  }

  /** Base-two logarithm, rounded down. */
  function Log2(h: nat): nat {
    if h <= 1 then 0 else 1 + Log2(h / 2)
  }

  /** Once the gaps double, a list of k more entries spans at least 2^k steps. */
  lemma {:induction false} SparseLength(h: nat, n: nat, step: nat)
    requires step >= 1 && n >= DENSE
    ensures |Heights(h, n, step)| <= 2 + Log2(h / step + 1)
    decreases h
  {
    if h == 0 {
    } else {
      var s := 2 * step;
      if h <= s {
        assert Heights(0, n + 1, s) == [0];
      } else {
        SparseLength(h - s, n + 1, s);
        HalfStep(h, step);
      }
    }
  }

  lemma HalfStep(h: nat, step: nat)
    requires step >= 1 && h > 2 * step
    ensures Log2((h - 2 * step) / (2 * step) + 1) + 1 <= Log2(h / step + 1)
  {
    var q := h / step;
    assert q >= 2 by { DivAtLeast(h, step, 2); }
    assert (h - 2 * step) / (2 * step) + 1 == q / 2 by { DivHalf(h, step); }
    LogMonotone(q / 2, (q + 1) / 2);
    assert Log2(q + 1) == 1 + Log2((q + 1) / 2);
  }

  lemma DivAtLeast(h: nat, step: nat, k: nat)
    requires step >= 1 && h >= k * step
    ensures h / step >= k
  {
    var q, r := h / step, h % step;
    var x := k - q;
    assert h == q * step + r;
    assert x * step == k * step - q * step;
    if x >= 1 { MulMono(step, 1, x); }
  }

  lemma DivHalf(h: nat, step: nat)
    requires step >= 1 && h >= 2 * step
    ensures (h - 2 * step) / (2 * step) + 1 == (h / step) / 2
  {
    var q, r := h / step, h % step;
    var a, o := q / 2, q % 2;
    assert h == q * step + r;
    assert q * step == (2 * a + o) * step == a * (2 * step) + o * step;
    assert 0 <= o * step + r < 2 * step;
    DivUnique(h, 2 * step, a, o * step + r);
    DivUnique(h - 2 * step, 2 * step, a - 1, o * step + r);
  }

  lemma {:induction false} LogMonotone(a: nat, b: nat)
    requires a <= b
    ensures Log2(a) <= Log2(b)
  {
    if a <= 1 {
    } else {
      LogMonotone(a / 2, b / 2);
    }
  }

  lemma {:induction false} DenseLength(h: nat, n: nat)
    requires n <= DENSE
    ensures |Heights(h, n, 1)| <= DENSE - n + 2 + Log2(h + 1)
    decreases DENSE - n
  {
    if n == DENSE {
      SparseLength(h, n, 1);
    } else if h > 0 {
      DenseLength(h - 1, n + 1);
      LogMonotone(h, h + 1);
    }
  }

  /** A locator has at most twelve entries more than the logarithm of its branch's length. */
  lemma LocatorShort(path: seq<Entry>)
    requires |path| > 0
    ensures |LocatorOf(path)| <= 12 + Log2(|path|)
  {
    DenseLength(|path| - 1, 0);
  }

  /** The first listed height at or below a bound: what a peer sharing the branch up to there recognises. */
  function FirstAtMost(hs: seq<nat>, bound: nat): (h: nat)
    requires |hs| > 0 && hs[|hs| - 1] == 0
    ensures h <= bound && h in hs
  {
    if hs[0] <= bound then hs[0] else FirstAtMost(hs[1..], bound)
  }

  lemma FirstUnfold(h: nat, n: nat, step: nat, bound: nat)
    requires step >= 1
    ensures FirstAtMost(Heights(h, n, step), bound)
         == if h <= bound then h
            else
              var s := NextStep(n + 1, step);
              FirstAtMost(Heights(if h <= s then 0 else h - s, n + 1, s), bound)
  {
    if h > bound {
      var s := NextStep(n + 1, step);
      assert Heights(h, n, step)[1..] == Heights(if h <= s then 0 else h - s, n + 1, s);
    }
  }

  /** The gaps are such that the first listed height at or below the last shared one is at most
      twice as far from the top. */
  lemma {:induction false} MatchWithinTwice(top: nat, h: nat, n: nat, step: nat, shared: nat)
    requires shared <= top && h <= top && step >= 1
    requires if n <= DENSE then step == 1 && h + n == top else top - h >= 2 * step
    requires h > shared || h == top
    ensures top - FirstAtMost(Heights(h, n, step), shared) <= 2 * (top - shared)
    decreases h
  {
    hide Heights, FirstAtMost;
    FirstUnfold(h, n, step, shared);
    if h <= shared {
    } else {
      var s := NextStep(n + 1, step);
      var next := if h <= s then 0 else h - s;
      if next > shared {
        MatchWithinTwice(top, next, n + 1, s, shared);
      } else {
        FirstUnfold(next, n + 1, s, shared);
      }
    }
  }

  // ----- answers -----

  /** Where a hash sits on a chain. */
  function IndexOf(chain: seq<Entry>, h: Hash): (i: Option<nat>)
    ensures i.Some? ==> i.value < |chain| && chain[i.value].hash == h
    ensures i.None? ==> forall k :: 0 <= k < |chain| ==> chain[k].hash != h
  {
    if |chain| == 0 then None
    else if chain[|chain| - 1].hash == h then Some(|chain| - 1)
    else IndexOf(chain[..|chain| - 1], h)
  }

  /** The height to answer from: one above the first locator entry on the chain, or 1. */
  function StartAfter(chain: seq<Entry>, locator: seq<Hash>): (start: nat)
    ensures start >= 1
  {
    if |locator| == 0 then 1
    else
      match IndexOf(chain, locator[0])
      case Some(i) => i + 1
      case None => StartAfter(chain, locator[1..])
  }

  /** Consecutive blocks from a height on, cut off by block count and by transaction count. */
  function Batch(chain: seq<Entry>, start: nat, count: nat, txs: nat): seq<Block>
    decreases count
  {
    if start >= |chain| || count == 0 then []
    else
      var b := chain[start].block;
      if txs + |b.txs| >= SYNC_TX_BUDGET then [b]
      else [b] + Batch(chain, start + 1, count - 1, txs + |b.txs|)
  }

  function Answer(chain: seq<Entry>, locator: seq<Hash>, count: nat): seq<Block> {
    Batch(chain, StartAfter(chain, locator), count, 0)
  }

  function BlocksOf(path: seq<Entry>): seq<Block> {
    seq(|path|, i requires 0 <= i < |path| => path[i].block)
  }

  /** A batch is a contiguous run of the chain, and there is progress whenever there is more chain. */
  lemma {:induction false} BatchIsRun(chain: seq<Entry>, start: nat, count: nat, txs: nat)
    requires start <= |chain|
    ensures start + |Batch(chain, start, count, txs)| <= |chain| && |Batch(chain, start, count, txs)| <= count
    ensures Batch(chain, start, count, txs) == BlocksOf(chain[start..start + |Batch(chain, start, count, txs)|])
    ensures start < |chain| && count > 0 ==> |Batch(chain, start, count, txs)| > 0
    decreases count
  {
    hide Batch, BlocksOf;
    BatchEnd(chain, start, count, txs);
    if start == |chain| || count == 0 {
      NoBlocks(chain, start);
    } else {
      BatchUnfold(chain, start, count, txs, []);
      var more := txs + |chain[start].block.txs|;
      var rest := if more < SYNC_TX_BUDGET then Batch(chain, start + 1, count - 1, more) else [];
      if more < SYNC_TX_BUDGET { BatchIsRun(chain, start + 1, count - 1, more); } else { NoBlocks(chain, start + 1); }
      FirstOfBlocks(chain, start, start + 1 + |rest|);
      var batch := Batch(chain, start, count, txs);
      assert [] + batch == batch && batch == [chain[start].block] + rest;
    }
  }

  lemma NoBlocks(chain: seq<Entry>, i: nat)
    requires i <= |chain|
    ensures BlocksOf(chain[i..i]) == []
  {
  }

  lemma FirstOfBlocks(chain: seq<Entry>, i: nat, j: nat)
    requires i < j <= |chain|
    ensures BlocksOf(chain[i..j]) == [chain[i].block] + BlocksOf(chain[i + 1..j])
  {
  }

  // ----- what two chains share -----

  /** How many blocks from genesis on carry the same hashes. */
  function SharedLen(a: seq<Entry>, b: seq<Entry>): (k: nat)
    ensures k <= |a| && k <= |b|
    ensures forall i :: 0 <= i < k ==> a[i].hash == b[i].hash
    ensures k < |a| && k < |b| ==> a[k].hash != b[k].hash
  {
    if |a| > 0 && |b| > 0 && a[0].hash == b[0].hash then 1 + SharedLen(a[1..], b[1..]) else 0
  }

  /** Two rule-abiding chains that agree on one hash agree on its height and on everything below. */
  lemma {:induction false} AgreeBelow(c: Crypto, p: Params, a: seq<Entry>, b: seq<Entry>, i: nat, j: nat)
    requires IdealHashes(c) && ChainOk(c, p, a) && ChainOk(c, p, b)
    requires HeightsFromGenesis(a) && HeightsFromGenesis(b)
    requires i < |a| && j < |b| && a[i].hash == b[j].hash
    ensures i == j && forall k :: 0 <= k <= i ==> a[k].hash == b[k].hash
  {
    hide IdealHashes, ChainOk, HeightsFromGenesis;
    OneBelow(c, p, a, b, i, j);
    if i == 0 {
    } else {
      AgreeBelow(c, p, a, b, i - 1, j - 1);
    }
  }

  lemma OneBelow(c: Crypto, p: Params, a: seq<Entry>, b: seq<Entry>, i: nat, j: nat)
    requires IdealHashes(c) && ChainOk(c, p, a) && ChainOk(c, p, b)
    requires HeightsFromGenesis(a) && HeightsFromGenesis(b)
    requires i < |a| && j < |b| && a[i].hash == b[j].hash
    ensures i == j && (i > 0 ==> a[i - 1].hash == b[j - 1].hash)
  {
    hide IdealHashes, BlockHash, GenesisHash, Extends;
    SameHeader(c, a[i].block, b[j].block);
    if i > 0 {
      PrevIs(c, p, a, i);
      PrevIs(c, p, b, j);
    }
  }

  lemma SameHeader(c: Crypto, a: Block, b: Block)
    requires IdealHashes(c) && BlockHash(c, a) == BlockHash(c, b)
    ensures a.height == b.height && a.prevHash == b.prevHash
  {
    assert a.(txs := []) == b.(txs := []);
    assert a.(txs := []).height == b.(txs := []).height && a.(txs := []).prevHash == b.(txs := []).prevHash;
  }

  lemma PrevIs(c: Crypto, p: Params, a: seq<Entry>, i: nat)
    requires ChainOk(c, p, a) && 0 < i < |a|
    ensures a[i].block.prevHash == a[i - 1].hash
  {
    hide BlockHash, NextDifficulty, AnchorOf, MeetsTarget, MerkleRoot;
    assert Extends(c, p, a[..i], a[i]);
    assert a[..i][|a[..i]| - 1] == a[i - 1];
  }

  lemma OnBoth(c: Crypto, p: Params, a: seq<Entry>, b: seq<Entry>, i: nat)
    requires IdealHashes(c) && ChainOk(c, p, a) && ChainOk(c, p, b)
    requires HeightsFromGenesis(a) && HeightsFromGenesis(b) && i < |a|
    ensures i < SharedLen(a, b) ==> IndexOf(b, a[i].hash) == Some(i)
    ensures i >= SharedLen(a, b) ==> IndexOf(b, a[i].hash).None?
  {
    hide IdealHashes, ChainOk, HeightsFromGenesis;
    match IndexOf(b, a[i].hash)
    case Some(j) => AgreeBelow(c, p, a, b, i, j);
    case None =>
  }

  lemma {:induction false} StartAtMatch(c: Crypto, p: Params, path: seq<Entry>, chain: seq<Entry>, hs: seq<nat>,
                                        locator: seq<Hash>)
    requires IdealHashes(c) && ChainOk(c, p, path) && ChainOk(c, p, chain)
    requires HeightsFromGenesis(path) && HeightsFromGenesis(chain)
    requires |hs| > 0 && hs[|hs| - 1] == 0 && |locator| == |hs| && SharedLen(path, chain) > 0
    requires forall i :: 0 <= i < |hs| ==> hs[i] < |path| && locator[i] == path[hs[i]].hash
    ensures StartAfter(chain, locator) == FirstAtMost(hs, SharedLen(path, chain) - 1) + 1
  {
    hide IdealHashes, ChainOk, HeightsFromGenesis, SharedLen, IndexOf;
    OnBoth(c, p, path, chain, hs[0]);
    if hs[0] < SharedLen(path, chain) {
    } else {
      StartAtMatch(c, p, path, chain, hs[1..], locator[1..]);
    }
  }

  /** The answer to a locator is a contiguous run of the responder's chain that starts right after a
      shared block at most twice as far from the requester's tip as the last shared one. */
  lemma AnswerConnects(c: Crypto, p: Params, path: seq<Entry>, chain: seq<Entry>, count: nat)
    requires IdealHashes(c) && ChainOk(c, p, path) && ChainOk(c, p, chain)
    requires HeightsFromGenesis(path) && HeightsFromGenesis(chain)
    ensures SharedLen(path, chain) > 0
    ensures var start, answer, shared := StartAfter(chain, LocatorOf(path)), Answer(chain, LocatorOf(path), count),
            SharedLen(path, chain);
            && 1 <= start <= shared && start + |answer| <= |chain|
            && path[start - 1].hash == chain[start - 1].hash
            && answer == BlocksOf(chain[start..start + |answer|])
            && (start < |chain| && count > 0 ==> |answer| > 0)
            && |path| - start <= 2 * (|path| - shared)
  {
    hide *;
    ChainNonEmpty(c, p, path);
    GenesisShared(c, p, path, chain);
    var shared := SharedLen(path, chain);
    var start := StartAfter(chain, LocatorOf(path));
    LocatorEntries(path);
    StartAtMatch(c, p, path, chain, Heights(|path| - 1, 0, 1), LocatorOf(path));
    TwiceFromTop(|path| - 1, shared - 1);
    BatchIsRun(chain, start, count, 0);
    AnswerIsBatch(chain, LocatorOf(path), count);
  }

  lemma ChainNonEmpty(c: Crypto, p: Params, path: seq<Entry>)
    requires ChainOk(c, p, path)
    ensures |path| > 0
  {
  }

  lemma LocatorEntries(path: seq<Entry>)
    requires |path| > 0
    ensures var hs := Heights(|path| - 1, 0, 1);
            && |LocatorOf(path)| == |hs|
            && forall i :: 0 <= i < |hs| ==> hs[i] < |path| && LocatorOf(path)[i] == path[hs[i]].hash
  {
    hide Heights;
    HeightsBelow(|path| - 1, 0, 1);
  }

  lemma TwiceFromTop(top: nat, shared: nat)
    requires shared <= top
    ensures top - FirstAtMost(Heights(top, 0, 1), shared) <= 2 * (top - shared)
  {
    hide Heights, FirstAtMost;
    MatchWithinTwice(top, top, 0, 1, shared);
  }

  lemma AnswerIsBatch(chain: seq<Entry>, locator: seq<Hash>, count: nat)
    ensures Answer(chain, locator, count) == Batch(chain, StartAfter(chain, locator), count, 0)
  {
  }

  lemma GenesisShared(c: Crypto, p: Params, a: seq<Entry>, b: seq<Entry>)
    requires ChainOk(c, p, a) && ChainOk(c, p, b)
    ensures SharedLen(a, b) > 0
  {
  }

  /** A locator anchored on the responder's own chain is answered from right above the anchor. */
  lemma ContinuesFromAnchor(chain: seq<Entry>, k: nat, count: nat)
    requires HeightsFromGenesis(chain) && 0 < k <= |chain|
    requires forall i, j :: 0 <= i < |chain| && 0 <= j < |chain| && chain[i].hash == chain[j].hash ==> i == j
    ensures StartAfter(chain, LocatorOf(chain[..k])) == k
  {
    hide LocatorOf, HeightsFromGenesis;
    assert LocatorOf(chain[..k])[0] == chain[k - 1].hash;
  }

  // ----- rounds -----

  /** A responder's chain: every block obeys the rules and the whole of it replays. */
  ghost predicate ServableChain(c: Crypto, p: Params, chain: seq<Entry>) {
    p.halvingInterval > 0 && ChainOk(c, p, chain) && HeightsFromGenesis(chain) && Replay(c, p, chain).Ok?
  }

  /** Exactly the first held blocks of the chain are stored. */
  ghost predicate Holds(t: Blocks, chain: seq<Entry>, held: nat) {
    forall i :: 0 <= i < |chain| ==>
      if i < held then chain[i].hash in t && t[chain[i].hash] == chain[i] else chain[i].hash !in t
  }

  /** None of the chain was rejected here or waits here as an orphan. */
  ghost predicate Unmarked(c: Crypto, r: set<Hash>, o: Orphans, chain: seq<Entry>) {
    forall i :: 0 <= i < |chain| ==> chain[i].hash !in r && chain[i].hash !in OrphanIds(c, o)
  }

  /** What an incoming batch may be: anything at all, or a run of a servable chain. */
  datatype Delivery = Anything | RunOf(chain: seq<Entry>, start: nat, held: nat)

  lemma {:induction false} HeldPath(c: Crypto, p: Params, t: Blocks, chain: seq<Entry>, held: nat, m: nat)
    requires Linked(t) && ChainOk(c, p, chain) && HeightsFromGenesis(chain) && Holds(t, chain, held)
    requires m < held <= |chain|
    ensures chain[m].hash in t && Path(t, chain[m].hash) == chain[..m + 1]
  {
    hide ChainOk;
    assert LinkedAt(t, chain[m].hash);
    if m == 0 {
      assert chain[..1] == [chain[0]];
    } else {
      PrevIs(c, p, chain, m);
      HeldPath(c, p, t, chain, held, m - 1);
      assert chain[..m + 1] == chain[..m] + [chain[m]];
    }
  }

  /** The next block of a chain held so far passes every check and becomes the very same entry. */
  lemma NextAccepted(c: Crypto, p: Params, t: Blocks, r: set<Hash>, chain: seq<Entry>, m: nat, now: i64)
    requires Linked(t) && ServableChain(c, p, chain) && Holds(t, chain, m) && 0 < m < |chain|
    requires chain[m].hash !in r && ClockAllows(p, chain[m].block, now)
    ensures var b := chain[m].block;
            && BlockHash(c, b) == chain[m].hash
            && Verdict(c, p, t, r, PathOrNothing(t, b.prevHash), b, now).None?
            && b.prevHash in t && Path(t, b.prevHash) + [chain[m]] == chain[..m + 1]
            && EntryFor(c, t[b.prevHash], b) == chain[m]
  {
    hide Linked, NextDifficulty, AnchorOf, MeetsTarget, MerkleRoot, Replay, ClockAllows, CheckBlock, Path,
         WellFormed, BlockHash;
    PrevIs(c, p, chain, m);
    HeldPath(c, p, t, chain, m, m - 1);
    assert Extends(c, p, chain[..m], chain[m]);
    assert chain[..m][|chain[..m]| - 1] == chain[m - 1];
    assert chain[..m + 1] == chain[..m] + [chain[m]];
    CheckBlockMeaning(c, p, chain[..m], chain[m].block, now);
  }

  lemma {:induction false} HashesDiffer(c: Crypto, p: Params, chain: seq<Entry>, i: nat, j: nat)
    requires IdealHashes(c) && ChainOk(c, p, chain) && HeightsFromGenesis(chain)
    requires i < |chain| && j < |chain| && chain[i].hash == chain[j].hash
    ensures i == j
  {
    hide IdealHashes, ChainOk, HeightsFromGenesis;
    AgreeBelow(c, p, chain, chain, i, j);
  }

  /** After that block is inserted exactly one more block of the chain is held. */
  lemma HoldsNext(c: Crypto, p: Params, t: Blocks, r: set<Hash>, o: Orphans, u: Blocks, s: set<Hash>, n: Orphans,
                  chain: seq<Entry>, m: nat)
    requires IdealHashes(c) && ServableChain(c, p, chain) && 0 < m < |chain| && Linked(t)
    requires Holds(t, chain, m) && Unmarked(c, r, o, chain)
    requires Evolves(c, p, t, r, u, s, {chain[m].hash} + OrphanIds(c, o)) && OrphanIds(c, n) <= OrphanIds(c, o)
    requires var b := chain[m].block;
             && b.prevHash in t && Path(t, b.prevHash) + [chain[m]] == chain[..m + 1]
             && EntryFor(c, t[b.prevHash], b) == chain[m] && StoredOrInvalid(c, p, t, u, s, b)
    ensures Holds(u, chain, m + 1) && Unmarked(c, s, n, chain)
  {
    hide IdealHashes, BlockHash, Linked, ChainOk, HeightsFromGenesis, Replay, Path, StateValid, OrphanIds, EntryFor;
    PrefixReplays(c, p, chain, m + 1);
    EvolvesAgree(c, p, t, r, u, s, {chain[m].hash} + OrphanIds(c, o));
    forall i | 0 <= i < |chain|
      ensures if i < m + 1 then chain[i].hash in u && u[chain[i].hash] == chain[i] else chain[i].hash !in u
      ensures chain[i].hash !in s
    {
      if i < m {
        HeldPath(c, p, t, chain, m, i);
        PrefixReplays(c, p, chain, i + 1);
        StateValidIs(c, p, t, chain[i].hash);
        ValidSurvives(c, p, t, r, u, s, {chain[m].hash} + OrphanIds(c, o), chain[i].hash);
      } else if i > m && chain[i].hash == chain[m].hash {
        HashesDiffer(c, p, chain, i, m);
      }
    }
  }

  lemma StateValidIs(c: Crypto, p: Params, t: Blocks, h: Hash)
    requires p.halvingInterval > 0 && Linked(t) && h in t && Replay(c, p, Path(t, h)).Ok?
    ensures StateValid(c, p, t, h)
  {
  }

  lemma PrefixReplays(c: Crypto, p: Params, chain: seq<Entry>, k: nat)
    requires ServableChain(c, p, chain) && k <= |chain|
    ensures Replay(c, p, chain[..k]).Ok?
  {
    hide Replay, ChainOk;
    if Replay(c, p, chain[..k]).Err? {
      ReplayStopsAtFirstError(c, p, chain, k);
    }
  }

  /** What is shared with the active chain is held. */
  lemma SharedIsHeld(t: Blocks, path: seq<Entry>, chain: seq<Entry>, held: nat)
    requires Holds(t, chain, held) && forall e :: e in path ==> e.hash in t
    ensures SharedLen(path, chain) <= held || held >= |chain|
  {
    forall i | 0 <= i < SharedLen(path, chain) ensures chain[i].hash in t {
      assert path[i] in path;
    }
    if held < |chain| { assert chain[held].hash !in t; }
  }

  lemma FromEndIs(path: seq<Entry>, i: nat)
    ensures FromEnd(path, i) == if i < |path| then Some(path[|path| - 1 - i]) else None
  {
  }

  /** The height index names exactly the active chain's entries, and they are stored. */
  lemma ActiveIndex(c: Crypto, p: Params, t: Blocks, tip: Option<Entry>, accounts: Accounts, heights: map<u64, Hash>)
    requires p.halvingInterval > 0 && TipOk(c, p, t, tip, accounts, heights) && tip.Some?
    ensures forall h: u64 :: h in heights <==> h <= tip.value.block.height
    ensures forall h: u64 :: h in heights ==>
              && heights[h] in t && h < |Path(t, tip.value.hash)|
              && t[heights[h]] == Path(t, tip.value.hash)[h] && heights[h] == Path(t, tip.value.hash)[h].hash
  {
    hide Linked, Path, Replay;
    forall h: nat | h <= tip.value.block.height
      ensures var e := Path(t, tip.value.hash)[h]; e.hash in t && t[e.hash] == e
    {
      PathShape(t, tip.value.hash, h);
    }
  }

  /** A stored hash is on the active chain exactly when the index holds it at its own height. */
  lemma IndexedHash(t: Blocks, tip: Hash, heights: map<u64, Hash>, h: Hash)
    requires Linked(t) && tip in t
    requires forall k: u64 :: k in heights <==> k <= t[tip].block.height
    requires forall k: u64 :: k in heights ==>
               heights[k] in t && k < |Path(t, tip)| && t[heights[k]] == Path(t, tip)[k]
                 && heights[k] == Path(t, tip)[k].hash
    ensures IndexOf(Path(t, tip), h)
         == if h in t && t[h].block.height in heights && heights[t[h].block.height] == h then Some(t[h].block.height)
            else None
  {
    hide Linked, Path;
    match IndexOf(Path(t, tip), h)
    case Some(k) => PathShape(t, tip, k);
    case None =>
  }

  lemma BatchUnfold(chain: seq<Entry>, h: nat, count: nat, txs: nat, out: seq<Block>)
    requires h < |chain| && count > 0
    ensures var b := chain[h].block;
            out + Batch(chain, h, count, txs)
            == out + [b] + if txs + |b.txs| >= SYNC_TX_BUDGET then [] else Batch(chain, h + 1, count - 1, txs + |b.txs|)
  {
  }

  /** The walk back doubles its steps without ever wrapping around. */
  lemma LocatorStep(top: nat, h: nat, n: nat, step: u64)
    requires 0 < h <= top < TWO64 && step >= 1 && n > 0
    requires if n - 1 <= DENSE then step == 1 && top - h == n - 1 else top - h >= 2 * step
    ensures var wide: nat := if n > DENSE then WrapU64(step * 2) else step;
            var next := if h <= wide then 0 else h - wide;
            && wide >= 1 && wide == NextStep(n, step)
            && if n <= DENSE then wide == 1 && top - next == n else next > 0 ==> top - next >= 2 * wide
  {
  }

  /** The transactions in the blocks from height i up to but not including j. */
  function TxsBetween(chain: seq<Entry>, i: nat, j: nat): nat
    requires i <= j <= |chain|
    decreases j - i
  {
    if i == j then 0 else |chain[i].block.txs| + TxsBetween(chain, i + 1, j)
  }

  /** A batch reaches past a height exactly if there is more chain, the count allows it and the
      transactions before that height stay within the budget. */
  lemma {:induction false} BatchReaches(chain: seq<Entry>, start: nat, count: nat, txs: nat, held: nat)
    requires start <= held <= |chain|
    ensures held < start + |Batch(chain, start, count, txs)| <==>
            && held < |chain| && held - start < count
            && (held == start || txs + TxsBetween(chain, start, held) < 5000)
    decreases count
  {
    if start == |chain| || count == 0 || start == held {
    } else {
      BatchReaches(chain, start + 1, count - 1, txs + |chain[start].block.txs|, held);
    }
  }

  lemma {:induction false} FewerBetween(chain: seq<Entry>, low: nat, start: nat, held: nat)
    requires low <= start <= held <= |chain|
    ensures TxsBetween(chain, start, held) <= TxsBetween(chain, low, held)
    decreases start - low
  {
    if low == start {
    } else {
      FewerBetween(chain, low + 1, start, held);
    }
  }

  /** The first height an answer can start from: as far below the last shared block as the requester's tip is
      above it, though never genesis. */
  function LowestStart(path: seq<Entry>, chain: seq<Entry>): (low: nat)
    ensures low >= 1
  {
    var own := |path| - SharedLen(path, chain);
    if SharedLen(path, chain) > own then SharedLen(path, chain) - own else 1
  }

  /** The first batch brings something new whenever the requester's fork is shallow: counted from the last
      shared block, the requester's own blocks and the responder's blocks it already holds are together fewer
      than a batch, and the responder's blocks from as far below the fork up to there stay within a batch's
      transactions. */
  lemma ShallowForkProgresses(c: Crypto, p: Params, path: seq<Entry>, chain: seq<Entry>, held: nat)
    requires IdealHashes(c) && ChainOk(c, p, path) && ChainOk(c, p, chain)
    requires HeightsFromGenesis(path) && HeightsFromGenesis(chain)
    requires SharedLen(path, chain) <= held < |chain|
    requires (|path| - SharedLen(path, chain)) + (held - SharedLen(path, chain)) < 500
    requires LowestStart(path, chain) <= held ==> TxsBetween(chain, LowestStart(path, chain), held) < 5000
    ensures held < StartAfter(chain, LocatorOf(path)) + |Answer(chain, LocatorOf(path), 500)|
  {
    hide IdealHashes, ChainOk, HeightsFromGenesis, LocatorOf, StartAfter, SharedLen, Batch, Answer, TxsBetween,
         BlocksOf;
    ChainNonEmpty(c, p, path);
    var start := StartAfter(chain, LocatorOf(path));
    AnswerConnects(c, p, path, chain, SYNC_BATCH);
    AnswerIsBatch(chain, LocatorOf(path), SYNC_BATCH);
    BatchReaches(chain, start, SYNC_BATCH, 0, held);
    FewerBetween(chain, LowestStart(path, chain), start, held);
  }

  lemma BatchEnd(chain: seq<Entry>, h: nat, count: nat, txs: nat)
    ensures h >= |chain| || count == 0 ==> Batch(chain, h, count, txs) == []
  {
  }

  ghost function HeldAfter(d: Delivery, i: nat): nat
    requires d.RunOf?
  {
    if d.start + i > d.held then d.start + i else d.held
  }

  lemma HeldOrNot(c: Crypto, p: Params, t: Blocks, r: set<Hash>, o: Orphans, chain: seq<Entry>, held: nat, m: nat)
    requires ServableChain(c, p, chain) && Holds(t, chain, held) && Unmarked(c, r, o, chain) && m < |chain|
    ensures chain[m].hash == BlockHash(c, chain[m].block) && chain[m].hash !in r
    ensures if m < held then chain[m].hash in t else chain[m].hash !in t
  {
    hide BlockHash, OrphanIds, Replay, GenesisHash, Extends;
  }

  lemma StoredHash(c: Crypto, p: Params, t: Blocks, r: set<Hash>, h: Hash)
    requires TreeInv(c, p, t, r)
    ensures h in t ==> t[h].hash == h
  {
    RejectedApart(c, p, t, r);
  }

  lemma AnchorAnswered(c: Crypto, p: Params, chain: seq<Entry>, k: nat)
    requires IdealHashes(c) && ServableChain(c, p, chain) && 0 < k <= |chain|
    ensures StartAfter(chain, LocatorOf(chain[..k])) == k
  {
    hide IdealHashes, ChainOk, Replay, LocatorOf, StartAfter;
    forall i, j | 0 <= i < |chain| && 0 <= j < |chain| && chain[i].hash == chain[j].hash ensures i == j {
      HashesDiffer(c, p, chain, i, j);
    }
    ContinuesFromAnchor(chain, k, 0);
  }

  lemma TipStays(before: Option<Entry>, after: Option<Entry>)
    requires TipImproves(before, after) && before.Some?
    ensures after.Some?
  {
  }

  /** The best block is at least as good as the end of a chain that is held. */
  lemma LastHeld(t: Blocks, chain: seq<Entry>, tip: Entry)
    requires Holds(t, chain, |chain|) && |chain| > 0 && Best(t, tip)
    ensures tip.hash == chain[|chain| - 1].hash || Better(tip, chain[|chain| - 1])
  {
  }
}
