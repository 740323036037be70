/** The consensus rules of a chain written out, field by field. */
module PlainRules {
  import opened Basics
  import opened Chain
  import opened Tree
  import opened Targets
  import opened Mempool
  import opened NodeRules
  import opened Sync

  /** A block follows the rules after a path exactly if all of this holds. */
  lemma RulesWrittenOut(c: Crypto, p: Params, path: seq<Entry>, b: Block)
    requires |path| > 0
    ensures var parent := path[|path| - 1].block;
            FollowsRules(c, p, path, b) <==>
            && b.height == parent.height + 1 && b.prevHash == c.headerHash(parent.(txs := []))
            && b.time > parent.time
            && 0 < |b.txs| <= p.maxTxsPerBlock && b.txs[0].from == ""
            && (forall j :: 0 < j < |b.txs| ==> b.txs[j].from != "")
            && b.miner != "" && c.addressValid(b.miner) && b.merkleRoot == MerkleRoot(c, b.txs)
            && b.difficulty == NextDifficulty(p, Some(parent), AnchorOf(p, path)) && b.difficulty != 0
            && (c.headerHash(b.(txs := [])) + 1) * b.difficulty
               < 0x1_00000000_00000000_00000000_00000000_00000000_00000000_00000000_00000000
  {
    hide MerkleRoot, NextDifficulty, AnchorOf, MeetsTarget;
    WorkMeaning(c, b);
    if |b.txs| > 0 { NoCoinbaseMeans(b.txs); }
  }

  lemma NoCoinbaseMeans(txs: seq<Tx>)
    requires |txs| > 0
    ensures HasCoinbase(txs[1..]) <==> exists j :: 0 < j < |txs| && txs[j].from == ""
  {
    if HasCoinbase(txs[1..]) {
      var t :| t in txs[1..] && IsCoinbase(t);
      var j :| 0 <= j < |txs[1..]| && txs[1..][j] == t;
      assert txs[j + 1].from == "";
    }
    if j :| 0 < j < |txs| && txs[j].from == "" {
      assert txs[1..][j - 1] == txs[j];
      assert IsCoinbase(txs[j]);
    }
  }

  /** On a chain every block above genesis stands one above its parent and later, holds one coinbase in front, at
      most the allowed number of transactions, and a valid miner; its hash is its header's and meets its
      difficulty, by which the work grows. */
  lemma ChainWrittenOut(c: Crypto, p: Params, path: seq<Entry>, i: nat)
    requires ChainOk(c, p, path) && 0 < i < |path|
    ensures var b, parent := path[i].block, path[i - 1].block;
            && path[i].hash == c.headerHash(b.(txs := [])) && path[i].work == path[i - 1].work + b.difficulty
            && b.height == parent.height + 1 && b.prevHash == path[i - 1].hash && b.time > parent.time
            && 0 < |b.txs| <= p.maxTxsPerBlock && b.txs[0].from == ""
            && (forall j :: 0 < j < |b.txs| ==> b.txs[j].from != "")
            && b.miner != "" && c.addressValid(b.miner) && b.merkleRoot == MerkleRoot(c, b.txs)
            && b.difficulty > 0
            && (path[i].hash + 1) * b.difficulty
               < 0x1_00000000_00000000_00000000_00000000_00000000_00000000_00000000_00000000
  {
    hide FollowsRules, MerkleRoot, NextDifficulty, AnchorOf;
    assert Extends(c, p, path[..i], path[i]);
    assert path[..i][i - 1] == path[i - 1];
    RulesWrittenOut(c, p, path[..i], path[i].block);
  }

  /** It starts with a block that has genesis' fields. */
  lemma GenesisWrittenOut(c: Crypto, p: Params, path: seq<Entry>)
    requires IdealHashes(c) && ChainOk(c, p, path)
    ensures var b := path[0].block;
            && path[0].work == 0 && b.height == 0 && b.prevHash == 0 && b.time == p.genesisTime && b.difficulty == 1
            && b.miner == "" && b.extraNonce == 0 && b.merkleRoot == 0 && b.nonce == 0
  {
    hide Extends;
    var b := path[0].block;
    assert BlockHash(c, b) == BlockHash(c, Genesis(p));
    assert b.(txs := []) == Genesis(p).(txs := []);
    var x := b.(txs := []);
    assert x.height == b.height && x.prevHash == b.prevHash && x.time == b.time && x.difficulty == b.difficulty;
    assert x.miner == b.miner && x.extraNonce == b.extraNonce && x.merkleRoot == b.merkleRoot && x.nonce == b.nonce;
  }

  /** What insertion says of a block, and in which order it looks: stored blocks pass, then rejected ones and other
      geneses are refused, blocks without a stored parent wait, and the rest must follow the rules in time. */
  lemma VerdictWrittenOut(c: Crypto, p: Params, t: Blocks, r: set<Hash>, b: Block, now: i64)
    requires Linked(t)
    ensures var h, v := c.headerHash(b.(txs := [])), Verdict(c, p, t, r, PathOrNothing(t, b.prevHash), b, now);
            && (h in t ==> v.None?)
            && (h !in t && h in r ==> v == Some(PreviouslyRejected))
            && (h !in t && h !in r && b.height == 0 ==> v == Some(UnknownGenesis))
            && (h !in t && h !in r && b.height > 0 && b.prevHash !in t ==> v == Some(Orphan))
            && (h !in t && h !in r && b.height > 0 && b.prevHash in t ==>
                  && (v.None? <==>
                        FollowsRules(c, p, Path(t, b.prevHash), b) && b.time <= WrapI64(now + p.maxFutureTime))
                  && v != Some(PreviouslyRejected) && v != Some(UnknownGenesis) && v != Some(Orphan))
  {
    hide FollowsRules, CheckBlock, Path, Linked;
    if b.prevHash in t && b.height > 0 {
      CheckBlockMeaning(c, p, Path(t, b.prevHash), b, now);
    }
  }

  // ----- the orphan buffer -----

  /** Buffering appends the block to its parent's list, unless its hash is buffered already or a hundred are. */
  lemma BufferedWrittenOut(c: Crypto, o: Orphans, b: Block)
    ensures var known := exists q, i ::
              q in o && 0 <= i < |o[q]| && c.headerHash(o[q][i].(txs := [])) == BlockHash(c, b);
            var n := AddedOrphan(c, o, b);
            if known || OrphanCount(o) >= 100 then n == o
            else && n.Keys == o.Keys + {b.prevHash} && (forall q :: q in o && q != b.prevHash ==> n[q] == o[q])
                 && n[b.prevHash] == (if b.prevHash in o then o[b.prevHash] + [b] else [b])
  {
    hide OrphanCount;
    if BlockHash(c, b) in OrphanIds(c, o) {
      var q, x :| q in o && x in o[q] && BlockHash(c, x) == BlockHash(c, b);
      var i :| 0 <= i < |o[q]| && o[q][i] == x;
      assert c.headerHash(o[q][i].(txs := [])) == BlockHash(c, b);
    }
    if q, i :| q in o && 0 <= i < |o[q]| && c.headerHash(o[q][i].(txs := [])) == BlockHash(c, b) {
      assert BlockHash(c, o[q][i]) in OrphanIds(c, o);
    }
  }

  // ----- fork choice -----

  /** The best block has more work than any other stored block, or the same and the smaller hash. */
  lemma BestWrittenOut(t: Blocks, e: Entry, h: Hash)
    requires Linked(t) && Best(t, e) && h in t && h != e.hash
    ensures t[h].work < e.work || (t[h].work == e.work && e.hash < h)
  {
    assert LinkedAt(t, h);
  }

  /** Among blocks of greatest work the best one's hex string comes first. */
  lemma BestHexFirst(t: Blocks, e: Entry, h: Hash, a: seq<nat>, b: seq<nat>)
    requires Linked(t) && Best(t, e) && h in t && h != e.hash && t[h].work >= e.work
    requires |a| == |b| && Digits(a, 256) && Digits(b, 256) && Value(a, 256) == e.hash && Value(b, 256) == h
    ensures StringLess(Hex(a), Hex(b))
  {
    hide Value, Hex, StringLess, Linked, Best;
    BestWrittenOut(t, e, h);
    HexStringOrder(a, b);
  }

  /** A tip only gives way to one with more work, or with the same and a smaller hash. */
  lemma ImprovesWrittenOut(before: Option<Entry>, after: Option<Entry>)
    requires TipImproves(before, after) && before.Some?
    ensures after.Some?
    ensures after == before || after.value.work > before.value.work
            || (after.value.work == before.value.work && after.value.hash < before.value.hash)
  {
  }

  /** A block handed to a settled node is in the tree afterwards exactly if its history is valid, or it has less
      work than the tip or as much and the greater hash, so that its state is not looked at. */
  lemma KeptWrittenOut(c: Crypto, p: Params, t: Blocks, tip: Entry, b: Block, u: Blocks)
    requires p.halvingInterval > 0 && Linked(t) && b.prevHash in t && KeptByMerit(c, p, t, tip, b, u)
    requires c.headerHash(b.(txs := [])) != tip.hash
    ensures var h, work := c.headerHash(b.(txs := [])), t[b.prevHash].work + b.difficulty;
            h in u <==>
            || Replay(c, p, Path(t, b.prevHash) + [Entry(b, h, work)]).Ok?
            || work < tip.work || (work == tip.work && h > tip.hash)
  {
    hide Replay, Path, Linked;
  }

  // ----- caches -----

  /** The deepest checkpoint on a path is the last entry that is one. */
  lemma {:induction false} DeepestCheckpoint(path: seq<Entry>, keys: set<Hash>, i: nat)
    requires Covered(path, keys) <= i < |path|
    ensures path[i].hash !in keys
    ensures var k := Covered(path, keys); k > 0 ==> path[k - 1].hash in keys
  {
    if i == |path| - 1 {
    } else {
      DeepestCheckpoint(path[..|path| - 1], keys, i);
    }
  }

  /** After a new tip exactly the mempool's entries under the ids of its block's transactions are taken out. */
  lemma TakenOut(c: Crypto, table: map<Hash, Tx>, txs: seq<Tx>, h: Hash)
    ensures h in WithoutIds(c, table, txs) <==> h in table && forall i :: 0 <= i < |txs| ==> c.txHash(txs[i]) != h
    ensures h in WithoutIds(c, table, txs) ==> WithoutIds(c, table, txs)[h] == table[h]
  {
    if i :| 0 <= i < |txs| && c.txHash(txs[i]) == h { assert txs[i] in txs; }
  }

  // ----- limits -----

  /** The limits the node works with. */
  lemma Limits()
    ensures MAX_ORPHANS == 100 && CHECKPOINT_INTERVAL == 100 && MAX_MEMPOOL == 10000 && SEEN_RESET_AT == 50000
    ensures SYNC_BATCH == 500 && SYNC_TX_BUDGET == 5000 && PUBLIC_KEY_SIZE == 32
  {
  }
}
