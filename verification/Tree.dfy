/** The block tree as a value: paths to genesis, what keeps them unchanged, and their replay. */
module Tree {
  import opened Basics
  import opened Chain
  import opened Ledger

  datatype Entry = Entry(block: Block, hash: Hash, work: nat)

  type Blocks = map<Hash, Entry>

  // ----- shape -----

  predicate LinkedAt(t: Blocks, h: Hash)
    requires h in t
  {
    && t[h].hash == h
    && (t[h].block.height > 0 ==>
          && t[h].block.prevHash in t
          && t[t[h].block.prevHash].block.height + 1 == t[h].block.height)
  }

  /** Every stored block but genesis has its parent stored, one height below. */
  ghost predicate Linked(t: Blocks) {
    forall h :: h in t ==> LinkedAt(t, h)
  }

  /** The blocks from genesis to h, in ascending order. */
  ghost function Path(t: Blocks, h: Hash): (path: seq<Entry>)
    requires Linked(t) && h in t
    ensures |path| == t[h].block.height + 1 && path[|path| - 1] == t[h]
    decreases t[h].block.height
  {
    assert LinkedAt(t, h);
    if t[h].block.height == 0 then [t[h]]
    else Path(t, t[h].block.prevHash) + [t[h]]
  }

  /** Two trees that give common blocks the same entry. */
  ghost predicate Agree(t: Blocks, u: Blocks) {
    forall h :: h in t && h in u ==> t[h] == u[h]
  }

  /** Position i holds height i, every entry is the stored one, and each names the one before as its parent. */
  lemma {:induction false} PathShape(t: Blocks, h: Hash, i: nat)
    requires Linked(t) && h in t && i <= t[h].block.height
    ensures var e := Path(t, h)[i]; e.block.height == i && e.hash in t && t[e.hash] == e
    ensures Path(t, Path(t, h)[i].hash) == Path(t, h)[..i + 1]
    ensures i > 0 ==> Path(t, h)[i].block.prevHash == Path(t, h)[i - 1].hash
    decreases t[h].block.height
  {
    assert LinkedAt(t, h);
    var path := Path(t, h);
    if i == t[h].block.height {
      assert path[..i + 1] == path;
      if i > 0 {
        var prev := t[h].block.prevHash;
        assert LinkedAt(t, prev);
        assert path[i - 1] == Path(t, prev)[i - 1];
      }
    } else {
      var prev := t[h].block.prevHash;
      PathShape(t, prev, i);
      assert path[..i + 1] == Path(t, prev)[..i + 1];
    }
  }

  /** A block's history does not depend on what else is stored. */
  lemma {:induction false} PathStable(t: Blocks, u: Blocks, h: Hash)
    requires Linked(t) && Linked(u) && Agree(t, u) && h in t && h in u
    ensures Path(t, h) == Path(u, h)
    decreases t[h].block.height
  {
    assert LinkedAt(t, h) && LinkedAt(u, h);
    if t[h].block.height == 0 {
    } else {
      PathStable(t, u, t[h].block.prevHash);
    }
  }

  ghost predicate OnPath(t: Blocks, h: Hash, x: Hash)
    requires Linked(t) && h in t
  {
    x in t && t[x] in Path(t, h)
  }

  lemma OnPathHeight(t: Blocks, h: Hash, x: Hash)
    requires Linked(t) && h in t && OnPath(t, h, x)
    ensures t[x].block.height <= t[h].block.height
    ensures Path(t, h)[t[x].block.height] == t[x]
    ensures Path(t, x) == Path(t, h)[..t[x].block.height + 1]
  {
    var i :| 0 <= i < |Path(t, h)| && Path(t, h)[i] == t[x];
    PathShape(t, h, i);
    assert LinkedAt(t, x);
  }

  lemma OnPathStep(t: Blocks, h: Hash, x: Hash)
    requires Linked(t) && h in t
    ensures OnPath(t, h, h)
    ensures t[h].block.height > 0 && t[h].block.prevHash in t ==>
              (OnPath(t, h, x) <==> x == h || OnPath(t, t[h].block.prevHash, x))
  {
    assert LinkedAt(t, h);
    if x in t { assert LinkedAt(t, x); }
    assert Path(t, h)[|Path(t, h)| - 1] == t[h];
  }

  // ----- consensus rules along a path -----

  /** The block one retarget interval before the block after this path, when that block retargets. */
  function AnchorOf(p: Params, path: seq<Entry>): Option<Block> {
    if p.blocksPerRetarget == 0 || WrapU64(|path|) % p.blocksPerRetarget != 0 || |path| < p.blocksPerRetarget
    then None
    else Some(path[|path| - p.blocksPerRetarget].block)
  }

  /** The block obeys every rule that depends on its ancestors but not on the clock or the accounts. */
  predicate FollowsRules(c: Crypto, p: Params, path: seq<Entry>, b: Block) {
    && |path| > 0
    && WellFormed(c, p, b, path[|path| - 1].block)
    && b.difficulty == NextDifficulty(p, Some(path[|path| - 1].block), AnchorOf(p, path))
    && MeetsTarget(c, b)
  }

  predicate Extends(c: Crypto, p: Params, path: seq<Entry>, e: Entry) {
    && FollowsRules(c, p, path, e.block)
    && e.work == path[|path| - 1].work + e.block.difficulty
  }

  ghost predicate EntryOk(c: Crypto, p: Params, t: Blocks, h: Hash)
    requires Linked(t) && h in t
  {
    && h == BlockHash(c, t[h].block)
    && if t[h].block.height == 0 then h == GenesisHash(c, p) && t[h].work == 0
       else LinkedAt(t, h) && Extends(c, p, Path(t, t[h].block.prevHash), t[h])
  }

  ghost predicate TreeOk(c: Crypto, p: Params, t: Blocks) {
    Linked(t) && forall h :: h in t ==> EntryOk(c, p, t, h)
  }

  /** A whole chain from genesis in which every block obeys the rules. */
  ghost predicate ChainOk(c: Crypto, p: Params, path: seq<Entry>) {
    && |path| > 0
    && path[0].block.height == 0 && path[0].hash == GenesisHash(c, p) && path[0].work == 0
    && (forall i :: 0 <= i < |path| ==> path[i].hash == BlockHash(c, path[i].block))
    && (forall i :: 0 < i < |path| ==> Extends(c, p, path[..i], path[i]))
  }

  lemma {:induction false} PathIsChain(c: Crypto, p: Params, t: Blocks, h: Hash)
    requires TreeOk(c, p, t) && h in t
    ensures ChainOk(c, p, Path(t, h))
    decreases t[h].block.height
  {
    hide Extends, BlockHash;
    assert EntryOk(c, p, t, h) && LinkedAt(t, h);
    if t[h].block.height == 0 {
    } else {
      var prev := t[h].block.prevHash;
      PathIsChain(c, p, t, prev);
      var path, before := Path(t, h), Path(t, prev);
      assert path[..|before|] == before;
      forall i | 0 < i < |path| ensures Extends(c, p, path[..i], path[i]) {
        if i < |before| { assert path[..i] == before[..i]; }
      }
    }
  }

  /** Storing a block on its stored parent keeps the tree well formed and every path as it was. */
  lemma InsertKeepsTree(c: Crypto, p: Params, t: Blocks, e: Entry)
    requires TreeOk(c, p, t) && e.hash !in t && e.hash == BlockHash(c, e.block)
    requires e.block.height > 0 && e.block.prevHash in t && Extends(c, p, Path(t, e.block.prevHash), e)
    ensures TreeOk(c, p, t[e.hash := e]) && Agree(t, t[e.hash := e])
    ensures Path(t[e.hash := e], e.hash) == Path(t, e.block.prevHash) + [e]
  {
    var u := t[e.hash := e];
    hide Extends, BlockHash;
    ExtendsHeight(c, p, Path(t, e.block.prevHash), e);
    forall h | h in u ensures LinkedAt(u, h) {
      if h in t { assert LinkedAt(t, h); }
    }
    forall h | h in u ensures EntryOk(c, p, u, h) {
      assert LinkedAt(u, h);
      if h != e.hash {
        assert EntryOk(c, p, t, h) && LinkedAt(t, h);
      }
      var prev := u[h].block.prevHash;
      if u[h].block.height > 0 { PathStable(t, u, prev); }
    }
    PathStable(t, u, e.block.prevHash);
  }

  lemma ExtendsHeight(c: Crypto, p: Params, path: seq<Entry>, e: Entry)
    requires Extends(c, p, path, e)
    ensures e.block.height == path[|path| - 1].block.height + 1
  {
  }

  /** Removing a set of blocks together with all their children keeps the rest well formed. */
  lemma RemoveKeepsTree(c: Crypto, p: Params, t: Blocks, gone: set<Hash>)
    requires TreeOk(c, p, t)
    requires forall h :: h in t && t[h].block.height > 0 && t[h].block.prevHash in gone ==> h in gone
    ensures TreeOk(c, p, t - gone) && Agree(t, t - gone)
  {
    hide Extends, BlockHash;
    var u := t - gone;
    forall h | h in u ensures LinkedAt(u, h) {
      assert LinkedAt(t, h);
    }
    forall h | h in u ensures EntryOk(c, p, u, h) {
      assert EntryOk(c, p, t, h) && LinkedAt(t, h);
      assert LinkedAt(u, h);
      if u[h].block.height > 0 { PathStable(t, u, u[h].block.prevHash); }
    }
  }

  /** Work is the sum of the difficulties above genesis. */
  ghost function WorkOf(path: seq<Entry>): nat {
    if |path| <= 1 then 0 else WorkOf(path[..|path| - 1]) + path[|path| - 1].block.difficulty
  }

  lemma {:induction false} WorkIsSum(c: Crypto, p: Params, path: seq<Entry>)
    requires ChainOk(c, p, path)
    ensures path[|path| - 1].work == WorkOf(path)
  {
    hide FollowsRules, BlockHash, GenesisHash;
    if |path| <= 1 {
    } else {
      var before := path[..|path| - 1];
      assert Extends(c, p, path[..|path| - 1], path[|path| - 1]);
      forall i | 0 < i < |before| ensures Extends(c, p, before[..i], before[i]) {
        assert before[..i] == path[..i];
      }
      WorkIsSum(c, p, before);
    }
  }

  /** Every proper ancestor carries strictly less work. */
  lemma {:induction false} WorkGrows(c: Crypto, p: Params, path: seq<Entry>, i: nat, j: nat)
    requires ChainOk(c, p, path) && i < j < |path|
    ensures path[i].work < path[j].work
  {
    assert Extends(c, p, path[..j], path[j]);
    assert path[j].work > path[j - 1].work by {
      assert FollowsRules(c, p, path[..j], path[j].block);
      hide WellFormed, NextDifficulty, AnchorOf, Target, BlockHash;
    }
    if i >= j - 1 {
    } else {
      WorkGrows(c, p, path, i, j - 1);
    }
  }

  // ----- fork choice -----

  /** More cumulative work wins; equal work falls to the smaller hash. */
  predicate Better(e: Entry, f: Entry) {
    e.work > f.work || (e.work == f.work && e.hash < f.hash)
  }

  ghost predicate Best(t: Blocks, e: Entry) {
    && e.hash in t && t[e.hash] == e
    && forall h :: h in t && h != e.hash ==> Better(e, t[h])
  }

  // ----- replay -----

  /** The accounts after applying every block of a path in order, starting from nothing. */
  ghost function Replay(c: Crypto, p: Params, path: seq<Entry>): Result<Accounts, LedgerError>
    requires p.halvingInterval > 0
  {
    if |path| == 0 then Ok(map[])
    else
      var e := path[|path| - 1];
      match Replay(c, p, path[..|path| - 1])
      case Err(err) => Err(err)
      case Ok(m) => if e.block.height == 0 then Ok(m) else ApplyBlock(c, p, m, e.block)
  }

  lemma {:induction false} ReplayStopsAtFirstError(c: Crypto, p: Params, path: seq<Entry>, k: nat)
    requires p.halvingInterval > 0 && k <= |path| && Replay(c, p, path[..k]).Err?
    ensures Replay(c, p, path) == Replay(c, p, path[..k])
  {
    hide ApplyBlock;
    if k == |path| {
      assert path[..k] == path;
    } else {
      assert path[..|path| - 1][..k] == path[..k];
      ReplayStopsAtFirstError(c, p, path[..|path| - 1], k);
    }
  }

  /** The state of a stored block's whole history is valid. */
  ghost predicate StateValid(c: Crypto, p: Params, t: Blocks, h: Hash)
    requires Linked(t) && h in t && p.halvingInterval > 0
  {
    Replay(c, p, Path(t, h)).Ok?
  }

  /** A valid block has valid ancestors. */
  lemma AncestorsValid(c: Crypto, p: Params, t: Blocks, h: Hash, x: Hash)
    requires Linked(t) && h in t && p.halvingInterval > 0 && StateValid(c, p, t, h) && OnPath(t, h, x)
    ensures StateValid(c, p, t, x)
  {
    OnPathHeight(t, h, x);
    if Replay(c, p, Path(t, x)).Err? {
      ReplayStopsAtFirstError(c, p, Path(t, h), t[x].block.height + 1);
    }
  }
}
