/** The block a node offers its miner, and why a found nonce is never wasted on it. */
module Mining {
  import opened Basics
  import opened Chain
  import opened Ledger
  import opened Conservation
  import opened Tree
  import opened StableSort
  import opened Nonces
  import opened Mempool
  import opened NodeRules

  /** Higher fee first, then older first. */
  function RicherFirst(): (Tx, Tx) -> bool {
    (s: Tx, t: Tx) => s.fee > t.fee || (s.fee == t.fee && s.time < t.time)
  }

  lemma RicherFirstIsWeakOrder()
    ensures WeakOrder(RicherFirst())
  {
  }

  /** The pending transactions a candidate carries: greedy in fee order, cut to the block size. */
  function Chosen(m: Accounts, pool: seq<Tx>, room: nat): seq<Tx> {
    var kept := Greedy(m, Sort(RicherFirst(), pool)).kept;
    if |kept| > room then kept[..room] else kept
  }

  /** The fees of a run, added up in 64 bits. */
  function FeeSum(txs: seq<Tx>): u64 {
    if |txs| == 0 then 0 else WrapU64(FeeSum(txs[..|txs| - 1]) + txs[|txs| - 1].fee)
  }

  function CandidateTime(tip: Block, now: i64): i64 {
    if now <= tip.time then WrapI64(tip.time + 1) else now
  }

  /** A candidate is not too far ahead of the clock when it is submitted, unless the tip already was. */
  lemma CandidateOnTime(p: Params, tip: Block, b: Block, builtAt: i64, submittedAt: i64)
    requires b.time == CandidateTime(tip, builtAt) && builtAt <= submittedAt && 0 <= p.maxFutureTime
    requires tip.time < submittedAt + p.maxFutureTime < TWO63
    ensures ClockAllows(p, b, submittedAt)
  {
  }

  function CoinbaseFor(p: Params, tip: Block, fees: u64, miner: Address, time: i64): Tx
    requires p.halvingInterval > 0
  {
    var height := WrapU64(tip.height + 1);
    Tx(COINBASE_ADDRESS, miner, WrapU64(RewardAt(p, height) + fees), 0, height, time, None, None)
  }

  function Candidate(c: Crypto, p: Params, path: seq<Entry>, m: Accounts, pool: seq<Tx>, miner: Address,
                     now: i64): Block
    requires |path| > 0 && p.halvingInterval > 0 && p.maxTxsPerBlock >= 1
  {
    var tip := path[|path| - 1];
    var time := CandidateTime(tip.block, now);
    var txs := Chosen(m, pool, p.maxTxsPerBlock - 1);
    var all := [CoinbaseFor(p, tip.block, FeeSum(txs), miner, time)] + txs;
    Block(WrapU64(tip.block.height + 1), tip.hash, time,
          NextDifficulty(p, Some(tip.block), AnchorOf(p, path)), miner, 0, MerkleRoot(c, all), 0, all)
  }

  predicate Ranks(t: Tx, fee: u64, time: i64) {
    t.fee == fee && t.time == time
  }

  function OfRank(fee: u64, time: i64): Tx -> bool {
    (t: Tx) => Ranks(t, fee, time)
  }

  /** The chosen transactions are pending ones, higher fees first and older ones first among equal fees;
      the order they are drawn from leaves transactions of equal fee and time as they came. */
  lemma ChosenInFeeOrder(m: Accounts, pool: seq<Tx>, room: nat)
    ensures forall t :: t in Chosen(m, pool, room) ==> t in pool
    ensures var txs := Chosen(m, pool, room);
            forall i, j :: 0 <= i < j < |txs| ==>
              txs[i].fee > txs[j].fee || (txs[i].fee == txs[j].fee && txs[i].time <= txs[j].time)
    ensures forall fee: u64, time: i64 ::
              Filter(OfRank(fee, time), Sort(RicherFirst(), pool)) == Filter(OfRank(fee, time), pool)
  {
    var sorted := Sort(RicherFirst(), pool);
    RicherFirstIsWeakOrder();
    SortSorted(RicherFirst(), pool);
    SortMembers(RicherFirst(), pool);
    GreedyApplies(m, sorted);
    KeptSorted(RicherFirst(), m, sorted);
    forall fee: u64, time: i64
      ensures Filter(OfRank(fee, time), sorted) == Filter(OfRank(fee, time), pool)
    {
      SortStable(RicherFirst(), pool, OfRank(fee, time));
    }
    hide Sort, Greedy;
    forall t | t in Greedy(m, sorted).kept ensures t in pool {
      InMultiset(sorted, t);
      InMultiset(pool, t);
    }
  }

  /** Nothing is left out but what does not apply when its turn comes or has no room: the chosen transactions are
      the first of those that apply in fee order, as many as there is room for. */
  lemma ChosenFillsRoom(m: Accounts, pool: seq<Tx>, room: nat)
    ensures var kept, txs := Greedy(m, Sort(RicherFirst(), pool)).kept, Chosen(m, pool, room);
            txs <= kept && |txs| == if |kept| < room then |kept| else room
    ensures var sorted := Sort(RicherFirst(), pool);
            ApplyAll(m, sorted).Ok? && |sorted| <= room ==>
              multiset(Chosen(m, pool, room)) == multiset(pool) && ApplyAll(m, Chosen(m, pool, room)).Ok?
  {
    var sorted := Sort(RicherFirst(), pool);
    SortMembers(RicherFirst(), pool);
    if ApplyAll(m, sorted).Ok? {
      GreedyKeepsAll(m, sorted);
    }
  }

  /** A candidate's time is the clock's reading if that is after the tip's, and else one after the tip's; its
      miner is paid. */
  lemma CandidateWrittenOut(c: Crypto, p: Params, path: seq<Entry>, m: Accounts, pool: seq<Tx>, miner: Address,
                            now: i64)
    requires |path| > 0 && p.halvingInterval > 0 && p.maxTxsPerBlock >= 1
    ensures var b, tip := Candidate(c, p, path, m, pool, miner, now), path[|path| - 1].block;
            && (now > tip.time ==> b.time == now)
            && (now <= tip.time < TWO63 - 1 ==> b.time == tip.time + 1)
            && |b.txs| > 0 && b.miner == miner && b.txs[0].to == miner && b.txs[0].time == b.time
            && b.txs[1..] == Chosen(m, pool, p.maxTxsPerBlock - 1)
  {
    hide Chosen, RewardAt, FeeSum, NextDifficulty, AnchorOf, MerkleRoot;
  }

  lemma ChosenApply(c: Crypto, m: Accounts, pool: seq<Tx>, room: nat)
    requires forall t :: t in pool ==> Verify(c, t).None?
    ensures ApplyAll(m, Chosen(m, pool, room)).Ok? && |Chosen(m, pool, room)| <= room
    ensures forall t :: t in Chosen(m, pool, room) ==> Verify(c, t).None?
  {
    hide Verify;
    var sorted := Sort(RicherFirst(), pool);
    var kept := Greedy(m, sorted).kept;
    SortMembers(RicherFirst(), pool);
    GreedyApplies(m, sorted);
    hide Sort, Greedy;
    forall t | t in kept ensures Verify(c, t).None? {
      InMultiset(sorted, t);
      InMultiset(pool, t);
    }
    if |kept| > room {
      AllPrefix(m, kept, room);
    }
  }

  /** Verified transactions that apply in a row make a body that applies, and the fees cannot wrap. */
  lemma {:induction false} BodyFromAll(c: Crypto, m: Accounts, txs: seq<Tx>)
    requires Total(m) < TWO64 && ApplyAll(m, txs).Ok? && forall t :: t in txs ==> Verify(c, t).None?
    ensures ApplyBody(c, m, txs) == Ok(Progress(ApplyAll(m, txs).value, FeeSum(txs)))
  {
    hide Verify, ApplyTx, Total;
    if |txs| == 0 {
    } else {
      var init, last := txs[..|txs| - 1], txs[|txs| - 1];
      assert last in txs;
      BodyFromAll(c, m, init);
      BodyConserves(c, m, init);
      StepConserves(c, ApplyBody(c, m, init).value, last);
    }
  }

  lemma {:induction false} NoCoinbaseInside(m: Accounts, txs: seq<Tx>)
    requires ApplyAll(m, txs).Ok?
    ensures !HasCoinbase(txs)
  {
    if HasCoinbase(txs) {
      var t :| t in txs && IsCoinbase(t);
      var i :| 0 <= i < |txs| && txs[i] == t;
      NonceAt(m, txs, i);
    }
  }

  /** The coinbase of a candidate pays exactly what the block rule asks for. */
  lemma CoinbaseAccepted(c: Crypto, p: Params, m: Accounts, txs: seq<Tx>, b: Block)
    requires p.halvingInterval > 0 && Total(m) + RewardAt(p, b.height) < TWO64
    requires ApplyAll(m, txs).Ok? && forall t :: t in txs ==> Verify(c, t).None?
    requires |b.txs| > 0 && b.txs[1..] == txs && IsCoinbase(b.txs[0]) && Verify(c, b.txs[0]).None?
    requires b.txs[0].amount == WrapU64(RewardAt(p, b.height) + FeeSum(txs))
    ensures ApplyBlock(c, p, m, b).Ok?
  {
    hide Verify, RewardAt, Total, ApplyBody, ApplyAll, FeeSum, WrapU64;
    BodyFromAll(c, m, txs);
    BlockConserves(c, p, m, b);
    CreditOnlyOverflows(ApplyAll(m, txs).value, b.txs[0].to, b.txs[0].amount);
  }

  /** No miner stall, the state half: whatever is pending, a candidate with a valid miner and
      something to pay applies to the accounts it was built on. */
  lemma CandidateApplies(c: Crypto, p: Params, path: seq<Entry>, m: Accounts, pool: seq<Tx>, miner: Address, now: i64,
                         extra: u64, nonce: u64)
    requires SoundParams(p) && p.maxTxsPerBlock >= 1 && 0 < |path| < TWO64 && HeightsFromGenesis(path)
    requires Replay(c, p, path) == Ok(m) && forall t :: t in pool ==> Verify(c, t).None?
    requires c.addressValid(miner) && miner != COINBASE_ADDRESS
    requires Candidate(c, p, path, m, pool, miner, now).txs[0].amount != 0
    ensures ApplyBlock(c, p, m, Candidate(c, p, path, m, pool, miner, now).(extraNonce := extra, nonce := nonce)).Ok?
  {
    hide Chosen, RewardAt, FeeSum, NextDifficulty, AnchorOf, MerkleRoot, Replay, Total, ApplyAll, ApplyBlock,
         HeightsFromGenesis, WrapU64, CandidateTime, Verify;
    var b := Candidate(c, p, path, m, pool, miner, now).(extraNonce := extra, nonce := nonce);
    var txs := Chosen(m, pool, p.maxTxsPerBlock - 1);
    CandidateCoinbase(c, p, path, m, pool, miner, now);
    assert b.txs[1..] == txs;
    ChosenApply(c, m, pool, p.maxTxsPerBlock - 1);
    NextRewardFits(c, p, path);
    CoinbaseAccepted(c, p, m, txs, b);
  }

  lemma CandidateCoinbase(c: Crypto, p: Params, path: seq<Entry>, m: Accounts, pool: seq<Tx>, miner: Address, now: i64)
    requires p.halvingInterval > 0 && p.maxTxsPerBlock >= 1 && 0 < |path|
    requires c.addressValid(miner) && miner != COINBASE_ADDRESS
    requires Candidate(c, p, path, m, pool, miner, now).txs[0].amount != 0
    ensures Verify(c, Candidate(c, p, path, m, pool, miner, now).txs[0]).None?
  {
    hide Chosen, RewardAt, FeeSum, NextDifficulty, AnchorOf, MerkleRoot, WrapU64, CandidateTime;
  }

  /** The reward of the next block still fits on top of everything paid so far. */
  lemma NextRewardFits(c: Crypto, p: Params, path: seq<Entry>)
    requires SoundParams(p) && 0 < |path| < TWO64 && HeightsFromGenesis(path) && Replay(c, p, path).Ok?
    ensures WrapU64(path[|path| - 1].block.height + 1) == |path|
    ensures Total(Replay(c, p, path).value) + RewardAt(p, |path|) < TWO64
  {
    hide RewardAt, Replay, Total, Supply;
    assert path[|path| - 1].block.height == |path| - 1;
    ReplayConserves(c, p, path);
    SupplyBound(p, |path|);
    SupplyStep(p, |path|);
  }

  /** No miner stall, the block half: with a nonce that meets its target a candidate obeys every
      rule its successor is checked against. */
  lemma CandidateFollowsRules(c: Crypto, p: Params, path: seq<Entry>, m: Accounts, pool: seq<Tx>, miner: Address,
                              now: i64,
                              extra: u64, nonce: u64)
    requires p.halvingInterval > 0 && p.maxTxsPerBlock >= 1 && ChainOk(c, p, path)
    requires HeightsFromGenesis(path) && |path| < TWO64 && path[|path| - 1].block.time < TWO63 - 1
    requires forall t :: t in pool ==> Verify(c, t).None?
    requires c.addressValid(miner) && miner != COINBASE_ADDRESS
    requires MeetsTarget(c, Candidate(c, p, path, m, pool, miner, now).(extraNonce := extra, nonce := nonce))
    ensures FollowsRules(c, p, path, Candidate(c, p, path, m, pool, miner, now).(extraNonce := extra, nonce := nonce))
  {
    hide Chosen, RewardAt, FeeSum, NextDifficulty, AnchorOf, MerkleRoot, MeetsTarget, ApplyAll, BlockHash, Verify,
         Extends;
    var b := Candidate(c, p, path, m, pool, miner, now).(extraNonce := extra, nonce := nonce);
    var txs := Chosen(m, pool, p.maxTxsPerBlock - 1);
    var tip := path[|path| - 1];
    assert b.txs[1..] == txs;
    ChosenApply(c, m, pool, p.maxTxsPerBlock - 1);
    NoCoinbaseInside(m, txs);
    WrapSmall(|path|);
    assert tip.block.height == |path| - 1;
  }

  /** A candidate with its nonces filled in. */
  function Solution(c: Crypto, p: Params, path: seq<Entry>, m: Accounts, pool: seq<Tx>, miner: Address, builtAt: i64,
                    extra: u64, nonce: u64): (b: Block)
    requires |path| > 0 && p.halvingInterval > 0 && p.maxTxsPerBlock >= 1
    ensures |b.txs| > 0
  {
    Candidate(c, p, path, m, pool, miner, builtAt).(extraNonce := extra, nonce := nonce)
  }

  /** What the program leaves to chance or to the operator: the nonce is good, the miner is an address,
      there is something to pay, the clock has not gone back since the candidate was built and is not too
      far behind the block it was built on. */
  predicate GoodSolution(c: Crypto, p: Params, path: seq<Entry>, m: Accounts, pool: seq<Tx>, miner: Address,
                         builtAt: i64, extra: u64, nonce: u64, submittedAt: i64)
    requires |path| > 0 && p.halvingInterval > 0 && p.maxTxsPerBlock >= 1
  {
    var b := Solution(c, p, path, m, pool, miner, builtAt, extra, nonce);
    && c.addressValid(miner) && miner != COINBASE_ADDRESS
    && |path| < TWO64 && MeetsTarget(c, b)
    && builtAt <= submittedAt && 0 <= p.maxFutureTime && submittedAt + p.maxFutureTime < TWO63
    && path[|path| - 1].block.time < submittedAt + p.maxFutureTime
    && b.txs[0].amount != 0
  }

  /** A solution is never wasted: whatever verified transactions it was built from, wherever the tip has gone
      since, it is refused only if its hash has been rejected, and its state is valid. */
  lemma CandidateAccepted(c: Crypto, p: Params, t: Blocks, r: set<Hash>, parent: Hash, m: Accounts, pool: seq<Tx>,
                          miner: Address, builtAt: i64, extra: u64, nonce: u64, submittedAt: i64)
    requires SoundParams(p) && p.maxTxsPerBlock >= 1 && TreeInv(c, p, t, r) && Linked(t) && parent in t
    requires Replay(c, p, Path(t, parent)) == Ok(m) && forall x :: x in pool ==> Verify(c, x).None?
    requires GoodSolution(c, p, Path(t, parent), m, pool, miner, builtAt, extra, nonce, submittedAt)
    ensures var b := Solution(c, p, Path(t, parent), m, pool, miner, builtAt, extra, nonce);
            && b.prevHash == parent
            && Verdict(c, p, t, r, PathOrNothing(t, parent), b, submittedAt)
               == (if BlockHash(c, b) in r && BlockHash(c, b) !in t then Some(PreviouslyRejected) else None)
            && Replay(c, p, Path(t, parent) + [EntryFor(c, t[parent], b)]).Ok?
  {
    hide Path, Linked, BlockHash, MeetsTarget, ClockAllows, ApplyAll, RewardAt, FeeSum, Chosen, MerkleRoot,
         NextDifficulty, AnchorOf, TreeInv, Replay, Ledger.ApplyBlock, CandidateTime, FollowsRules, ChainOk, Verify;
    var path := Path(t, parent);
    var b := Solution(c, p, path, m, pool, miner, builtAt, extra, nonce);
    StoredUnderOwn(c, p, t, r, parent);
    TreeGivesChain(c, p, t, r, parent);
    CandidateOnTime(p, t[parent].block, b, builtAt, submittedAt);
    CandidateFollowsRules(c, p, path, m, pool, miner, builtAt, extra, nonce);
    CandidateApplies(c, p, path, m, pool, miner, builtAt, extra, nonce);
    GoodBlockVerdict(c, p, t, r, b, submittedAt);
    ReplayOneMore(c, p, path, EntryFor(c, t[parent], b));
  }

  lemma StoredUnderOwn(c: Crypto, p: Params, t: Blocks, r: set<Hash>, h: Hash)
    requires TreeInv(c, p, t, r) && Linked(t) && h in t
    ensures t[h].hash == h && Path(t, h)[|Path(t, h)| - 1] == t[h]
  {
    hide BlockHash, Extends, Genesis, GenesisHash;
    assert LinkedAt(t, h);
  }
}
