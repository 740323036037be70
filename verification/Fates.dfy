/** What becomes of buffered orphans: none is ever lost. */
module OrphanFates {
  import opened Basics
  import opened Chain
  import opened Tree
  import opened Conservation
  import opened NodeRules
  import opened Sync

  ghost predicate Waits(o: Orphans, b: Block) {
    b.prevHash in o && b in o[b.prevHash]
  }

  predicate EndsIn(path: seq<Entry>, h: Hash) {
    |path| > 0 && path[|path| - 1].hash == h
  }

  /** On a rule-abiding chain ending in its parent the block breaks a rule, or one of these readings of the
      clock is too early for it. */
  ghost predicate Refused(c: Crypto, p: Params, b: Block, readings: set<i64>) {
    || b.height == 0
    || exists path: seq<Entry> ::
         && ChainOk(c, p, path) && EndsIn(path, b.prevHash)
         && (!FollowsRules(c, p, path, b) || TooEarly(p, b, readings))
  }

  ghost predicate TooEarly(p: Params, b: Block, readings: set<i64>) {
    exists now: i64 :: now in readings && !ClockAllows(p, b, now)
  }

  /** Some rule-abiding chain ends in this very block and does not replay. */
  ghost predicate Invalid(c: Crypto, p: Params, b: Block)
    requires p.halvingInterval > 0
  {
    exists path: seq<Entry> :: ChainOk(c, p, path) && EndsWith(path, b) && Replay(c, p, path).Err?
  }

  predicate EndsWith(path: seq<Entry>, b: Block) {
    |path| > 0 && path[|path| - 1].block == b
  }

  /** From rejected set r to tree u, rejected set s and buffer n: the block still waits, it is stored, its
      hash had been rejected before, it is rejected now and its own history is invalid, or it was refused. */
  ghost predicate Fate(c: Crypto, p: Params, b: Block, r: set<Hash>, u: Blocks, s: set<Hash>, n: Orphans,
                       readings: set<i64>)
    requires p.halvingInterval > 0
  {
    var h := BlockHash(c, b);
    || (Waits(n, b) && (h in s ==> h in r))
    || (h in u && u[h].block == b)
    || h in r
    || (h in s && Invalid(c, p, b))
    || Refused(c, p, b, readings)
  }

  ghost predicate Fates(c: Crypto, p: Params, o: Orphans, r: set<Hash>, u: Blocks, s: set<Hash>, n: Orphans,
                        readings: set<i64>)
    requires p.halvingInterval > 0
  {
    forall q, b :: q in o && b in o[q] ==> Fate(c, p, b, r, u, s, n, readings)
  }

  /** While nothing is taken out of the buffer and nothing rejected everything in it waits. */
  lemma FatesWaiting(c: Crypto, p: Params, o: Orphans, r: set<Hash>, u: Blocks, n: Orphans, readings: set<i64>)
    requires p.halvingInterval > 0 && OrphansOk(c, o)
    requires forall q, b :: q in o && b in o[q] ==> q in n && b in n[q]
    ensures Fates(c, p, o, r, u, r, n, readings)
  {
    hide BlockHash, Refused, Invalid, OrphanCount;
  }

  /** A selection rejects only stored blocks, and a waiting block is not one of them. */
  lemma FatesSelecting(c: Crypto, p: Params, o: Orphans, t: Blocks, r: set<Hash>, u: Blocks, s: set<Hash>,
                       readings: set<i64>)
    requires p.halvingInterval > 0 && IdealHashes(c) && OrphansOk(c, o) && ParentsMissing(o, t, {})
    requires TreeInv(c, p, t, r) && TreeInv(c, p, u, s) && Evolves(c, p, t, r, u, s, {})
    ensures Fates(c, p, o, r, u, s, o, readings)
  {
    hide Refused, Invalid, OrphanCount, StateValid, EntryOk, BlockHash, IdealHashes, Genesis, GenesisHash;
    forall q, b | q in o && b in o[q] ensures Fate(c, p, b, r, u, s, o, readings) {
      var h := BlockHash(c, b);
      if h in t && h in s {
        StoredHeader(c, p, t, r, h, b);
        GenesisStays(c, p, t, r, u, s, h);
      }
    }
  }

  /** Two blocks of one hash name the same parent and the same height. */
  lemma StoredHeader(c: Crypto, p: Params, t: Blocks, r: set<Hash>, h: Hash, b: Block)
    requires IdealHashes(c) && TreeInv(c, p, t, r) && h in t && BlockHash(c, b) == h
    ensures t[h].block.prevHash == b.prevHash && t[h].block.height == b.height
  {
    hide Extends;
    assert EntryOk(c, p, t, h);
    SameHeader(c, t[h].block, b);
  }

  lemma GenesisStays(c: Crypto, p: Params, t: Blocks, r: set<Hash>, u: Blocks, s: set<Hash>, h: Hash)
    requires TreeInv(c, p, t, r) && TreeInv(c, p, u, s) && h in t && h in s
    ensures t[h].block.height > 0 && t[h].block.prevHash in t
  {
    hide Extends, BlockHash, GenesisHash, Genesis;
    assert EntryOk(c, p, t, h) && LinkedAt(t, h);
  }

  lemma AddingKeeps(c: Crypto, o: Orphans, b: Block)
    ensures forall q, d :: q in o && d in o[q] ==> q in AddedOrphan(c, o, b) && d in AddedOrphan(c, o, b)[q]
  {
    hide BlockHash, OrphanCount, OrphanIds;
  }

  /** One step later: whatever fate was met is still met. */
  lemma FateKept(c: Crypto, p: Params, b: Block, r: set<Hash>, u: Blocks, s: set<Hash>, n: Orphans,
                 v: Blocks, q: set<Hash>, m: Orphans, readings: set<i64>, more: set<Hash>)
    requires p.halvingInterval > 0 && Fate(c, p, b, r, u, s, n, readings)
    requires TreeInv(c, p, u, s) && Evolves(c, p, u, s, v, q, more)
    requires Waits(n, b) ==> Fate(c, p, b, s, v, q, m, readings)
    ensures Fate(c, p, b, r, v, q, m, readings)
  {
    hide BlockHash, Refused, Invalid, StateValid, TreeOk, Waits, Genesis, GenesisHash;
    var h := BlockHash(c, b);
    if h in u && u[h].block == b && h !in v {
      LostIsInvalid(c, p, u, s, h);
    }
  }

  lemma LostIsInvalid(c: Crypto, p: Params, t: Blocks, r: set<Hash>, h: Hash)
    requires p.halvingInterval > 0 && TreeInv(c, p, t, r) && Linked(t) && h in t && !StateValid(c, p, t, h)
    ensures Invalid(c, p, t[h].block)
  {
    hide ChainOk, EntryOk, BlockHash, Genesis, GenesisHash;
    PathIsChain(c, p, t, h);
    assert EndsWith(Path(t, h), t[h].block);
  }

  lemma FatesTrans(c: Crypto, p: Params, o: Orphans, r: set<Hash>, u: Blocks, s: set<Hash>, n: Orphans,
                   v: Blocks, q: set<Hash>, m: Orphans, readings: set<i64>, more: set<Hash>)
    requires p.halvingInterval > 0 && Fates(c, p, o, r, u, s, n, readings) && Fates(c, p, n, s, v, q, m, readings)
    requires TreeInv(c, p, u, s) && Evolves(c, p, u, s, v, q, more)
    ensures Fates(c, p, o, r, v, q, m, readings)
  {
    hide Fate, Evolves, TreeInv;
    forall h, b | h in o && b in o[h] ensures Fate(c, p, b, r, v, q, m, readings) {
      FateKept(c, p, b, r, u, s, n, v, q, m, readings, more);
    }
  }

  /** The fate of a block handed in, by the verdict on it. */
  lemma OwnFate(c: Crypto, p: Params, t: Blocks, r: set<Hash>, o: Orphans, b: Block, now: i64, readings: set<i64>,
                u: Blocks, s: set<Hash>, n: Orphans, extra: set<Hash>)
    requires p.halvingInterval > 0 && TreeInv(c, p, t, r) && Linked(t) && Evolves(c, p, t, r, u, s, extra)
    requires now in readings && BlockHash(c, b) !in OrphanIds(c, o) && OrphanCount(o) < MAX_ORPHANS
    requires BlockHash(c, b) !in t
    requires var err := Verdict(c, p, t, r, PathOrNothing(t, b.prevHash), b, now);
             && (err == Some(Orphan) ==> n == AddedOrphan(c, o, b) && s == r)
             && (err.None? && BlockHash(c, b) !in t ==> b.prevHash in t && StoredOrInvalid(c, p, t, u, s, b))
    ensures Fate(c, p, b, r, u, s, n, readings)
  {
    hide BlockHash, CheckBlock, OrphanIds, OrphanCount, ChainOk, Invalid, StateValid, Replay, Path, TreeInv,
         FollowsRules, ClockAllows;
    if b.prevHash in t && b.height != 0 && BlockHash(c, b) !in r {
      var path := Path(t, b.prevHash);
      TreeGivesChain(c, p, t, r, b.prevHash);
      ParentEntry(c, p, t, r, b.prevHash);
      CheckBlockMeaning(c, p, path, b, now);
      if CheckBlock(c, p, path, b, now).Some? {
        RefusedHere(c, p, path, b, now, readings);
      } else {
        AcceptedExtends(c, p, path, b, now);
        OneMoreOnChain(c, p, path, b);
      }
    }
  }

  /** A chain with a rule-abiding block on top is a chain; if it does not replay the block is invalid. */
  lemma OneMoreOnChain(c: Crypto, p: Params, path: seq<Entry>, b: Block)
    requires p.halvingInterval > 0 && ChainOk(c, p, path)
    requires Extends(c, p, path, EntryFor(c, path[|path| - 1], b))
    ensures Replay(c, p, path + [EntryFor(c, path[|path| - 1], b)]).Err? ==> Invalid(c, p, b)
  {
    hide BlockHash, GenesisHash, FollowsRules, Replay;
    var longer := path + [EntryFor(c, path[|path| - 1], b)];
    forall i | 0 < i < |longer| ensures Extends(c, p, longer[..i], longer[i]) {
      assert i < |path| ==> longer[..i] == path[..i];
      assert i == |path| ==> longer[..i] == path;
    }
    assert ChainOk(c, p, longer) && EndsWith(longer, b);
  }

  lemma RefusedHere(c: Crypto, p: Params, path: seq<Entry>, b: Block, now: i64, readings: set<i64>)
    requires ChainOk(c, p, path) && |path| > 0 && path[|path| - 1].hash == b.prevHash && now in readings
    requires !(FollowsRules(c, p, path, b) && ClockAllows(p, b, now))
    ensures Refused(c, p, b, readings)
  {
    hide ChainOk, FollowsRules, ClockAllows;
    assert !ClockAllows(p, b, now) ==> TooEarly(p, b, readings);
  }

  /** Promotion has come as far as the first i of the list that waited for a parent. */
  lemma FatesOneMore(c: Crypto, p: Params, o: Orphans, parent: Hash, list: seq<Block>, i: nat, r: set<Hash>, u: Blocks,
                     s: set<Hash>, n: Orphans, readings: set<i64>)
    requires p.halvingInterval > 0 && i < |list| && Fates(c, p, o[parent := list[..i]], r, u, s, n, readings)
    requires Fate(c, p, list[i], r, u, s, n, readings)
    ensures Fates(c, p, o[parent := list[..i + 1]], r, u, s, n, readings)
  {
    hide Fate;
    assert list[..i + 1] == list[..i] + [list[i]];
    var before, after := o[parent := list[..i]], o[parent := list[..i + 1]];
    forall q, b | q in after && b in after[q] ensures Fate(c, p, b, r, u, s, n, readings) {
      if q != parent || b != list[i] {
        assert q in before && b in before[q];
      }
    }
  }

  lemma FatesBegin(c: Crypto, p: Params, o: Orphans, parent: Hash, r: set<Hash>, u: Blocks, readings: set<i64>)
    requires p.halvingInterval > 0 && OrphansOk(c, o) && parent in o
    ensures Fates(c, p, o[parent := o[parent][..0]], r, u, r, o - {parent}, readings)
  {
    hide BlockHash, Refused, Invalid;
  }

  /** From i on the blocks of the list are neither buffered nor stored nor newly rejected. */
  ghost predicate Untouched(c: Crypto, list: seq<Block>, i: nat, o: Orphans, t: Blocks, r: set<Hash>, s: set<Hash>) {
    forall j :: i <= j < |list| ==>
      var h := BlockHash(c, list[j]); h !in OrphanIds(c, o) && h !in t && (h in s ==> h in r)
  }

  /** No stored block names this one as its parent. */
  ghost predicate Childless(t: Blocks, parent: Hash) {
    forall y :: y in t ==> t[y].block.prevHash != parent
  }

  lemma ChildlessAtFirst(c: Crypto, p: Params, t: Blocks, r: set<Hash>, e: Entry)
    requires IdealHashes(c) && TreeInv(c, p, t, r) && e.hash !in t && e.hash == BlockHash(c, e.block)
    requires e.block.prevHash in t
    ensures Childless(t[e.hash := e], e.hash)
  {
    hide Extends;
    forall y | y in t ensures t[y].block.prevHash != e.hash {
      assert EntryOk(c, p, t, y) && LinkedAt(t, y);
      assert t[y].block.height == 0 ==> BlockHash(c, t[y].block) == BlockHash(c, Genesis(p));
      if t[y].block.height == 0 { SameHeader(c, t[y].block, Genesis(p)); }
    }
  }

  /** The list that waits for a block just stored is untouched once it is taken out of the buffer. */
  lemma ListUntouched(c: Crypto, p: Params, o: Orphans, parent: Hash, t: Blocks, r: set<Hash>)
    requires IdealHashes(c) && TreeInv(c, p, t, r) && OrphansOk(c, o) && parent in o && Childless(t, parent)
    ensures Untouched(c, o[parent], 0, o - {parent}, t, r, r)
  {
    hide BlockHash, IdealHashes, TreeInv, OrphanCount;
    ListIdsApart(c, o, parent);
    var list := o[parent];
    forall j | 0 <= j < |list| ensures BlockHash(c, list[j]) !in t {
      if BlockHash(c, list[j]) in t {
        StoredHeader(c, p, t, r, BlockHash(c, list[j]), list[j]);
      }
    }
  }

  lemma StillUntouched(c: Crypto, p: Params, list: seq<Block>, i: nat, o: Orphans, t: Blocks, r: set<Hash>,
                       r1: set<Hash>,
                       n: Orphans, u: Blocks, s: set<Hash>)
    requires p.halvingInterval > 0 && i < |list| && Untouched(c, list, i, o, t, r, r1)
    requires forall j :: i < j < |list| ==> BlockHash(c, list[j]) != BlockHash(c, list[i])
    requires Evolves(c, p, t, r1, u, s, {BlockHash(c, list[i])} + OrphanIds(c, o))
    requires OrphanIds(c, n) <= OrphanIds(c, o) + {BlockHash(c, list[i])}
    ensures Untouched(c, list, i + 1, n, u, r, s)
  {
    hide BlockHash, OrphanIds, StateValid, Linked;
  }

  /** The ids on a list taken out of the buffer occur once: neither in the rest nor twice in the list. */
  lemma ListIdsApart(c: Crypto, o: Orphans, parent: Hash)
    requires OrphansOk(c, o) && parent in o
    ensures forall j :: 0 <= j < |o[parent]| ==> BlockHash(c, o[parent][j]) !in OrphanIds(c, o - {parent})
    ensures forall i, j :: 0 <= i < j < |o[parent]| ==> BlockHash(c, o[parent][i]) != BlockHash(c, o[parent][j])
  {
    hide BlockHash;
    var list := o[parent];
    forall j | 0 <= j < |list| ensures BlockHash(c, list[j]) !in OrphanIds(c, o - {parent}) {
      forall q, d | q in o - {parent} && d in o[q] ensures BlockHash(c, d) != BlockHash(c, list[j]) {
        var k :| 0 <= k < |o[q]| && o[q][k] == d;
      }
    }
  }

  lemma ParentTaken(o: Orphans, t: Blocks, parent: Hash)
    requires ParentsMissing(o, t, {parent})
    ensures ParentsMissing(o - {parent}, t, {})
  {
  }

  lemma NoParentWaits(o: Orphans, t: Blocks, parent: Hash)
    requires ParentsMissing(o, t, {parent})
    ensures parent !in o ==> ParentsMissing(o, t, {})
  {
  }

  lemma FewOrphans(c: Crypto, o: Orphans)
    requires OrphansOk(c, o)
    ensures OrphanCount(o) <= MAX_ORPHANS
  {
  }

  /** One more block of the list has been handed in. */
  lemma PromotedOne(c: Crypto, p: Params, o: Orphans, parent: Hash, list: seq<Block>, i: nat, now: i64,
                    readings: set<i64>,
                    r: set<Hash>, t1: Blocks, r1: set<Hash>, o1: Orphans, u: Blocks, s: set<Hash>, n: Orphans)
    requires p.halvingInterval > 0 && i < |list| && now in readings
    requires TreeInv(c, p, t1, r1) && Linked(t1) && OrphanCount(o1) < MAX_ORPHANS
             && Untouched(c, list, i, o1, t1, r, r1)
    requires Evolves(c, p, t1, r1, u, s, {BlockHash(c, list[i])} + OrphanIds(c, o1))
    requires Fates(c, p, o[parent := list[..i]], r, t1, r1, o1, readings) && Fates(c, p, o1, r1, u, s, n, readings)
    requires var b := list[i];
             var err := Verdict(c, p, t1, r1, PathOrNothing(t1, b.prevHash), b, now);
             && (err == Some(Orphan) ==> n == AddedOrphan(c, o1, b) && s == r1)
             && (err.None? && BlockHash(c, b) !in t1 ==> b.prevHash in t1 && StoredOrInvalid(c, p, t1, u, s, b))
    ensures Fates(c, p, o[parent := list[..i + 1]], r, u, s, n, readings)
  {
    hide BlockHash, OrphanIds, OrphanCount, TreeInv, Evolves, Fates, Verdict, StoredOrInvalid, AddedOrphan, Linked,
         PathOrNothing, Refused, Invalid, Waits;
    var extra := {BlockHash(c, list[i])} + OrphanIds(c, o1);
    OwnFate(c, p, t1, r1, o1, list[i], now, readings, u, s, n, extra);
    assert Fate(c, p, list[i], r, u, s, n, readings);
    FatesTrans(c, p, o[parent := list[..i]], r, t1, r1, o1, u, s, n, readings, extra);
    FatesOneMore(c, p, o, parent, list, i, r, u, s, n, readings);
  }

  /** At rest a block whose parent is stored no longer waits. */
  lemma NoneLeftWaiting(c: Crypto, p: Params, o: Orphans, q: Hash, b: Block, r: set<Hash>, u: Blocks, s: set<Hash>,
                        n: Orphans, readings: set<i64>)
    requires p.halvingInterval > 0 && Fates(c, p, o, r, u, s, n, readings) && ParentsMissing(n, u, {})
    requires q in o && b in o[q] && b.prevHash in u
    ensures var h := BlockHash(c, b);
            (h in u && u[h].block == b) || h in r || (h in s && Invalid(c, p, b)) || Refused(c, p, b, readings)
  {
    hide BlockHash, Refused, Invalid;
    assert Fate(c, p, b, r, u, s, n, readings);
  }

  /** What rules say of a block is settled by the hash it names as its parent. */
  lemma RulesByHash(c: Crypto, p: Params, a: seq<Entry>, d: seq<Entry>, b: Block)
    requires IdealHashes(c) && ChainOk(c, p, a) && ChainOk(c, p, d)
    requires HeightsFromGenesis(a) && HeightsFromGenesis(d) && a[|a| - 1].hash == d[|d| - 1].hash
    ensures FollowsRules(c, p, a, b) <==> FollowsRules(c, p, d, b)
  {
    hide WellFormed, NextDifficulty, MeetsTarget, GenesisHash, Extends;
    AgreeBelow(c, p, a, d, |a| - 1, |d| - 1);
    forall i | 0 <= i < |a| ensures SameButTxs(a[i].block, d[i].block) {
      assert a[i].block.(txs := []) == d[i].block.(txs := []);
      SameFields(a[i].block, d[i].block);
    }
    SameRules(c, p, a, d, b);
  }

  predicate SameButTxs(a: Block, b: Block) {
    && a.height == b.height && a.prevHash == b.prevHash && a.time == b.time && a.difficulty == b.difficulty
    && a.miner == b.miner && a.extraNonce == b.extraNonce && a.merkleRoot == b.merkleRoot && a.nonce == b.nonce
  }

  lemma SameFields(a: Block, b: Block)
    requires a.(txs := []) == b.(txs := [])
    ensures SameButTxs(a, b)
  {
    var x, y := a.(txs := []), b.(txs := []);
    assert x.height == y.height && x.prevHash == y.prevHash && x.time == y.time && x.difficulty == y.difficulty;
    assert x.miner == y.miner && x.extraNonce == y.extraNonce && x.merkleRoot == y.merkleRoot && x.nonce == y.nonce;
  }

  lemma SameRules(c: Crypto, p: Params, a: seq<Entry>, d: seq<Entry>, b: Block)
    requires |a| == |d| > 0 && forall i :: 0 <= i < |a| ==> SameButTxs(a[i].block, d[i].block)
    ensures FollowsRules(c, p, a, b) <==> FollowsRules(c, p, d, b)
  {
    hide Retarget, MeetsTarget, MerkleRoot;
    var x, y := a[|a| - 1].block, d[|d| - 1].block;
    assert SameButTxs(x, y) && x.(txs := []) == y.(txs := []);
    var i := |a| - p.blocksPerRetarget;
    assert 0 <= i < |a| ==> SameButTxs(a[i].block, d[i].block);
  }

  /** An orphan that follows the rules and that the clock admits at every reading is not refused: once its
      parent is stored it is stored too, unless it was rejected before or its history is invalid. */
  lemma GoodOrphanEnters(c: Crypto, p: Params, o: Orphans, q: Hash, b: Block, r: set<Hash>, u: Blocks, s: set<Hash>,
                         n: Orphans, readings: set<i64>)
    requires p.halvingInterval > 0 && IdealHashes(c) && TreeInv(c, p, u, s)
    requires Fates(c, p, o, r, u, s, n, readings) && ParentsMissing(n, u, {})
    requires q in o && b in o[q] && b.prevHash in u && Linked(u)
    requires FollowsRules(c, p, Path(u, b.prevHash), b)
    requires forall now: i64 :: now in readings ==> ClockAllows(p, b, now)
    ensures var h := BlockHash(c, b); (h in u && u[h].block == b) || h in r || (h in s && Invalid(c, p, b))
  {
    hide BlockHash, Invalid, Fates, FollowsRules, ClockAllows, ChainOk, Path, TreeInv, IdealHashes;
    NoneLeftWaiting(c, p, o, q, b, r, u, s, n, readings);
    NotHeightZero(c, p, Path(u, b.prevHash), b);
    var here := Path(u, b.prevHash);
    TreeGivesChain(c, p, u, s, b.prevHash);
    ParentEntry(c, p, u, s, b.prevHash);
    forall path: seq<Entry> | ChainOk(c, p, path) && EndsIn(path, b.prevHash) ensures FollowsRules(c, p, path, b) {
      ChainHeights(c, p, path);
      RulesByHash(c, p, here, path, b);
    }
  }

  lemma NotHeightZero(c: Crypto, p: Params, path: seq<Entry>, b: Block)
    requires FollowsRules(c, p, path, b)
    ensures b.height != 0
  {
    hide NextDifficulty, MeetsTarget, AnchorOf, BlockHash, MerkleRoot;
  }

  lemma OneHigher(c: Crypto, p: Params, path: seq<Entry>, e: Entry)
    requires Extends(c, p, path, e) && path[|path| - 1].block.height == |path| - 1
    ensures e.block.height == |path|
  {
    hide BlockHash, NextDifficulty, MeetsTarget, MerkleRoot, AnchorOf;
  }

  lemma {:induction false} ChainHeights(c: Crypto, p: Params, path: seq<Entry>)
    requires ChainOk(c, p, path)
    ensures HeightsFromGenesis(path)
  {
    hide BlockHash, GenesisHash, Extends;
    if |path| == 1 {
    } else {
      var before := path[..|path| - 1];
      forall i | 0 < i < |before| ensures Extends(c, p, before[..i], before[i]) {
        assert before[..i] == path[..i];
      }
      ChainHeights(c, p, before);
      OneHigher(c, p, before, path[|path| - 1]);
    }
  }
}
