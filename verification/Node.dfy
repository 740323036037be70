/** The full node: one mutex-guarded state machine, each locked entry point one step. */
module FullNode {
  import opened Basics
  import opened Chain
  import opened Ledger
  import opened Conservation
  import opened AccountState
  import opened Tree
  import opened Subtree
  import opened StableSort
  import opened Nonces
  import opened Mempool
  import opened NodeRules
  import opened Mining
  import opened Sync
  import opened OrphanFates
  import opened Convergence
  import opened Merkle
  import opened BlockTwins
  import opened Balances
  import opened PlainRules
  import opened ReorgPool

  /** The locked entry points that change state. Spend stands for building a payment on the cached pending state. */
  datatype Step = NewBlock(b: Block, now: i64, later: set<i64>) | NewTx(t: Tx) | Spend

  datatype AddError = TxRefused(reason: LedgerError) | MempoolFull

  class Node {
    const c: Crypto
    const p: Params

    var blocks: Blocks
    var tip: Option<Entry>
    var state: State
    var checkpoints: map<Hash, State>
    var rejected: set<Hash>
    var orphans: Orphans
    var chainHeights: map<u64, Hash>
    var mempoolTx: map<Hash, Tx>
    var mempoolOrder: seq<Hash>
    var pending: State?
    var pendingDirty: bool
    var seenTx: set<Hash>
    var booting: bool

    // ----- what holds between steps -----

    ghost predicate Environment() {
      p.halvingInterval > 0 && SoundParams(p) && IdealHashes(c)
    }

    ghost predicate TreePart()
      reads `blocks, `rejected
    {
      TreeInv(c, p, blocks, rejected)
    }

    /** The accounts and every checkpoint equal the replay of their own chain from nothing. */
    ghost predicate LedgerPart()
      reads `blocks, `tip, `state, `chainHeights, `checkpoints, state, checkpoints.Values
    {
      && p.halvingInterval > 0
      && TipOk(c, p, blocks, tip, state.accounts, chainHeights)
      && CheckpointPart()
    }

    ghost predicate CheckpointPart()
      requires p.halvingInterval > 0
      reads `blocks, `checkpoints, checkpoints.Values
    {
      forall h :: h in checkpoints ==> CheckpointOk(c, p, blocks, h, checkpoints[h].accounts)
    }

    /** Everything pending applies in order to the accounts, and a clean cache is that result. */
    ghost predicate PoolPart()
      reads `state, `mempoolOrder, `mempoolTx, `pending, `pendingDirty, state, pending
    {
      && PoolOk(c, state.accounts, mempoolOrder, mempoolTx)
      && (pending != null ==> Total(pending.accounts) < TWO64)
      && (pending != null && !pendingDirty && |mempoolTx| < MAX_MEMPOOL ==>
            Same(pending.accounts, ApplyAll(state.accounts, PoolOf(mempoolOrder, mempoolTx)).value))
    }

    /** The only account state ever written to in place is shared with nothing else. */
    ghost predicate Apart()
      reads `state, `pending, `checkpoints
    {
      pending != null ==> pending != state && pending !in checkpoints.Values
    }

    ghost predicate Core()
      reads `blocks, `rejected, `tip, `state, `chainHeights, `checkpoints, `mempoolOrder, `mempoolTx, `pending,
            `pendingDirty,
            state, pending, checkpoints.Values
    {
      Environment() && TreePart() && LedgerPart() && PoolPart() && Apart()
    }

    /** Between the inner steps of an insertion: everything but the fork choice is settled. */
    ghost predicate Busy(inserting: set<Hash>)
      reads this, state, pending, checkpoints.Values
    {
      && Core() && Linked(blocks)
      && OrphansOk(c, orphans)
      && OnlyPendingBetter(blocks, tip, inserting)
      && (booting ==> tip.None?)
    }

    /** What holds whenever the lock is free. */
    ghost predicate Valid()
      reads this, state, pending, checkpoints.Values
    {
      Busy({}) && ParentsMissing(orphans, blocks, {})
    }

    // ----- booting -----

    constructor (c: Crypto, p: Params)
      ensures this.c == c && this.p == p
      ensures blocks == map[] && rejected == {} && tip.None? && booting
      ensures fresh(state) && state.accounts == map[] && checkpoints == map[] && orphans == map[]
      ensures mempoolTx == map[] && mempoolOrder == [] && pending == null && seenTx == {}
    {
      this.c, this.p := c, p;
      blocks, rejected, orphans, chainHeights := map[], {}, map[], map[];
      tip, checkpoints := None, map[];
      mempoolTx, mempoolOrder, seenTx := map[], [], {};
      pending, pendingDirty := null, false;
      booting := true;
      var empty := new State();
      state := empty;
    }

    // ----- walking the tree -----

    method PathToGenesis(e: Entry) returns (path: seq<Entry>)
      requires Environment() && TreePart() && e.hash in blocks && blocks[e.hash] == e
      ensures path == Reversed(Path(blocks, e.hash))
    {
      hide TreeInv, IdealHashes, SoundParams, Linked, Ranked, Rooted, Path, Reversed, Lookup;
      TreeFacts(c, p, blocks, rejected);
      ghost var full := Path(blocks, e.hash);
      path := [];
      var cur := Some(e);
      while cur.Some?
        invariant |path| <= |full| && cur == FromEnd(full, |path|)
        invariant cur.None? ==> |path| == |full|
        invariant forall k :: 0 <= k < |path| ==> Some(path[k]) == FromEnd(full, k)
        decreases |full| - |path|
      {
        WalkStep(blocks, e.hash, |path|);
        path := path + [cur.value];
        cur := Lookup(blocks, cur.value.block.prevHash);
      }
      ReversedIs(full, path);
    }

    method Reverse(path: seq<Entry>) returns (r: seq<Entry>)
      ensures r == Reversed(path)
    {
      r := path;
      var i, j := 0, |path| - 1;
      while i < j
        invariant 0 <= i <= j + 2 && j == |path| - 1 - i && |r| == |path|
        invariant forall k :: i <= k <= j ==> r[k] == path[k]
        invariant forall k :: 0 <= k < i ==> r[k] == path[|path| - 1 - k]
        invariant forall k :: j < k < |path| ==> r[k] == path[|path| - 1 - k]
      {
        var x, y := r[i], r[j];
        r := r[i := y];
        r := r[j := x];
        i, j := i + 1, j - 1;
      }
    }

    /** The chain ending in e, genesis first. */
    method PathFromGenesis(e: Entry) returns (path: seq<Entry>)
      requires Environment() && TreePart() && e.hash in blocks && blocks[e.hash] == e
      ensures path == Path(blocks, e.hash)
    {
      hide IdealHashes, SoundParams, TreeInv;
      path := PathToGenesis(e);
      path := Reverse(path);
    }

    /** Walks back one retarget interval when the next block retargets; the walk never runs out. */
    method Anchor(parent: Entry) returns (anchor: Option<Block>)
      requires Environment() && TreePart() && parent.hash in blocks && blocks[parent.hash] == parent
      ensures anchor == AnchorOf(p, Path(blocks, parent.hash))
    {
      hide TreeInv, IdealHashes, SoundParams, Linked, Ranked, Rooted, Path, Lookup;
      TreeFacts(c, p, blocks, rejected);
      ghost var full := Path(blocks, parent.hash);
      if p.blocksPerRetarget == 0 || WrapU64(parent.block.height + 1) % p.blocksPerRetarget != 0 {
        return None;
      }
      AnchorExists(p, full);
      var cur := Some(parent);
      var i: nat := 0;
      while i < p.blocksPerRetarget - 1 && cur.Some?
        invariant i <= p.blocksPerRetarget - 1 && cur == FromEnd(full, i)
      {
        WalkStep(blocks, parent.hash, i);
        cur := Lookup(blocks, cur.value.block.prevHash);
        i := i + 1;
      }
      if cur.None? {
        return None;
      }
      anchor := Some(cur.value.block);
    }

    method Children(x: Hash) returns (children: seq<Hash>)
      ensures NoDuplicates(children)
      ensures forall y :: y in children <==> y in blocks && blocks[y].block.prevHash == x
    {
      children := [];
      var left := blocks.Keys;
      while left != {}
        invariant left <= blocks.Keys && NoDuplicates(children)
        invariant forall y :: y in children <==> y in blocks && y !in left && blocks[y].block.prevHash == x
        decreases left
      {
        var y :| y in left;
        left := left - {y};
        if blocks[y].block.prevHash == x {
          children := children + [y];
        }
      }
    }

    /** Removes a block and everything built on it, and remembers exactly those hashes. */
    method RejectSubtree(x: Hash)
      requires Ranked(blocks) && Rooted(blocks) && x in blocks
      modifies this`blocks, this`rejected
      ensures blocks == old(blocks) - Descendants(old(blocks), x)
      ensures rejected == old(rejected) + Descendants(old(blocks), x)
      decreases blocks.Keys
    {
      hide Ranked, Rooted, RemovedSoFar, Descendants, ProperChildren, NoDuplicates, Firsts;
      ghost var t := blocks;
      rejected := rejected + {x};
      blocks := blocks - {x};
      var children := Children(x);
      RemovedNone(t, x);
      ChildrenProper(t, x, children);
      FirstsNone(children);
      for i := 0 to |children|
        invariant blocks == t - RemovedSoFar(t, x, Firsts(children, i))
        invariant rejected == old(rejected) + RemovedSoFar(t, x, Firsts(children, i))
      {
        FirstsStep(children, i);
        ProperFirsts(t, x, children, i + 1);
        RemoveNextChild(t, x, Firsts(children, i), children[i]);
        RootedWithout(t, RemovedSoFar(t, x, Firsts(children, i)));
        RejectSubtree(children[i]);
      }
      ProperFirsts(t, x, children, |children|);
      AllChildrenDone(t, x, Firsts(children, |children|));
    }

    // ----- the mempool -----

    /** Keeps what still applies, in the order it came, and caches the resulting accounts. */
    method RevalidateMempool()
      requires EntriesOk(c, mempoolTx) && NoDuplicates(mempoolOrder) && Total(state.accounts) < TWO64
      modifies this`mempoolTx, this`mempoolOrder, this`pending, this`pendingDirty
      ensures PoolOf(mempoolOrder, mempoolTx)
           == Greedy(state.accounts, PoolOf(old(mempoolOrder), old(mempoolTx))).kept
      ensures PoolOk(c, state.accounts, mempoolOrder, mempoolTx) && mempoolTx.Keys <= old(mempoolTx).Keys
      ensures fresh(pending) && !pendingDirty && Total(pending.accounts) < TWO64
      ensures Same(pending.accounts, ApplyAll(state.accounts, PoolOf(mempoolOrder, mempoolTx)).value)
    {
      hide Ledger.ApplyTx, Verify, Greedy, PoolOf, ApplyAll, Same, Indexed, Touch, Kept, NoDuplicates, Total;
      var order, table := mempoolOrder, mempoolTx;
      ghost var m := state.accounts;
      var work := state.Clone();
      var keepTx: map<Hash, Tx> := map[];
      var keepOrder: seq<Hash> := [];
      KeptNothing(c, m);
      PoolOfPrefix(order, table);
      for i := 0 to |order|
        invariant Kept(c, m, PoolOf(order[..i], table), keepOrder, keepTx, work.accounts)
        invariant forall h :: h in keepTx ==> h in order[..i] && h in table
        invariant Total(work.accounts) < TWO64
      {
        var h := order[i];
        PoolStep(order, table, i);
        ghost var seen := PoolOf(order[..i], table);
        if h !in table {
          assert seen + [] == seen;
          continue;
        }
        var t := table[h];
        NotListedBefore(order, i, keepTx);
        var kept := TryTx(work, t, seen, keepOrder, keepTx, h);
        if kept {
          keepTx := keepTx[h := t];
          keepOrder := keepOrder + [h];
        }
      }
      KeptIsPool(c, m, PoolOf(order, table), keepOrder, keepTx, work.accounts);
      KeptChoice(c, m, PoolOf(order, table), keepOrder, keepTx, work.accounts);
      mempoolTx, mempoolOrder := keepTx, keepOrder;
      pending, pendingDirty := work, false;
    }

    /** Applies one candidate to the working accounts if it still can be applied. */
    method TryTx(work: State, t: Tx, ghost seen: seq<Tx>, ghost order: seq<Hash>, ghost table: map<Hash, Tx>,
                 ghost h: Hash)
      returns (kept: bool)
      requires work != state && Total(work.accounts) < TWO64
      requires Kept(c, state.accounts, seen, order, table, work.accounts)
      requires h !in table && c.txHash(t) == h && Verify(c, t).None?
      modifies work
      ensures Total(work.accounts) < TWO64
      ensures Kept(c, state.accounts, seen + [t], if kept then order + [h] else order,
                   if kept then table[h := t] else table, work.accounts)
    {
      hide Ledger.ApplyTx, Verify, Same, Touch, Kept, Total;
      ghost var before := work.accounts;
      WorkStaysSmall(before, t);
      var err := work.ApplyTx(t);
      kept := err.None?;
      if kept {
        KeptTake(c, state.accounts, seen, order, table, before, t, h);
      } else {
        TouchKeepsTotal(before, t.from);
        RefusalSame(before, t, work.accounts);
        KeptDrop(c, state.accounts, seen, order, table, before, work.accounts, t);
      }
    }

    /** The old mempool followed by the rolled-back transactions, first occurrences only. */
    method CollectCandidates(rolledBack: seq<Tx>) returns (order: seq<Tx>)
      ensures order == Distinct(c, PoolOf(mempoolOrder, mempoolTx) + rolledBack)
    {
      hide PoolOf, Collected;
      var cands: map<Hash, Tx> := map[];
      order := [];
      CollectedNothing(c);
      PoolOfPrefix(mempoolOrder, mempoolTx);
      for i := 0 to |mempoolOrder|
        invariant Collected(c, PoolOf(mempoolOrder[..i], mempoolTx), cands, order)
      {
        PoolStep(mempoolOrder, mempoolTx, i);
        var h := mempoolOrder[i];
        ghost var seen := PoolOf(mempoolOrder[..i], mempoolTx);
        if h in mempoolTx {
          cands, order := AddCandidate(cands, order, mempoolTx[h], seen);
        } else {
          assert seen + [] == seen;
        }
      }
      ghost var pool := PoolOf(mempoolOrder, mempoolTx);
      assert pool + rolledBack[..0] == pool;
      for i := 0 to |rolledBack|
        invariant Collected(c, pool + rolledBack[..i], cands, order)
      {
        assert pool + rolledBack[..i] + [rolledBack[i]] == pool + rolledBack[..i + 1];
        cands, order := AddCandidate(cands, order, rolledBack[i], pool + rolledBack[..i]);
      }
      assert rolledBack[..|rolledBack|] == rolledBack;
      CollectedOrder(c, pool + rolledBack, cands, order);
    }

    method AddCandidate(cands: map<Hash, Tx>, order: seq<Tx>, t: Tx, ghost seen: seq<Tx>)
      returns (cands': map<Hash, Tx>, order': seq<Tx>)
      requires Collected(c, seen, cands, order)
      ensures Collected(c, seen + [t], cands', order')
    {
      hide Collected;
      CollectOne(c, seen, cands, order, t);
      var h := c.txHash(t);
      if h !in cands && !IsCoinbase(t) {
        return cands[h := t], order + [t];
      }
      return cands, order;
    }

    /** The ids of everything on the active chain. */
    method CollectConfirmed() returns (ids: set<Hash>)
      requires Environment() && TreePart() && tip.Some? && tip.value.hash in blocks
               && blocks[tip.value.hash] == tip.value
      ensures ids == ConfirmedIds(c, Path(blocks, tip.value.hash))
    {
      hide TreeInv, IdealHashes, SoundParams, Path, Linked, Ranked, Rooted, ConfirmedIds;
      TreeFacts(c, p, blocks, rejected);
      var path := PathToGenesis(tip.value);
      ids := {};
      ConfirmedNothing(c);
      assert path[..0] == [];
      for i := 0 to |path|
        invariant ids == ConfirmedIds(c, path[..i])
      {
        var txs := path[i].block.txs;
        ghost var before := ids;
        for j := 0 to |txs|
          invariant ids == before + set t | t in txs[..j] :: c.txHash(t)
        {
          ids := ids + {c.txHash(txs[j])};
        }
        ConfirmedStep(c, path, i);
        assert txs[..|txs|] == txs;
      }
      assert path[..|path|] == path;
      ConfirmedReversed(c, Path(blocks, tip.value.hash));
    }

    /** Rebuilds the mempool for a new active chain from what was pending and what was rolled back. */
    method RebuildMempool(rolledBack: seq<Tx>)
      requires Environment() && TreePart() && tip.Some? && tip.value.hash in blocks
               && blocks[tip.value.hash] == tip.value
      requires Total(state.accounts) < TWO64
      modifies this`mempoolTx, this`mempoolOrder, this`pending, this`pendingDirty
      ensures PoolOf(mempoolOrder, mempoolTx)
           == Rebuilt(c, state.accounts, PoolOf(old(mempoolOrder), old(mempoolTx)) + rolledBack,
                      ConfirmedIds(c, Path(blocks, tip.value.hash))).kept
      ensures var pool := PoolOf(mempoolOrder, mempoolTx);
              forall i, j :: 0 <= i < j < |pool| ==> pool[i].time <= pool[j].time
      ensures PoolOk(c, state.accounts, mempoolOrder, mempoolTx)
      ensures fresh(pending) && !pendingDirty && Total(pending.accounts) < TWO64
      ensures Same(pending.accounts, ApplyAll(state.accounts, PoolOf(mempoolOrder, mempoolTx)).value)
    {
      hide TreeInv, IdealHashes, SoundParams, Path, PoolOf, Verify, Greedy, ApplyAll, Same, Kept, Total, Distinct,
           ConfirmedIds, Filter, Sort, Ledger.ApplyTx, IdsDiffer;
      var cands := CollectCandidates(rolledBack);
      var confirmed := CollectConfirmed();
      var order := Sort(Earlier(), cands);
      ghost var keep := Eligible(c, confirmed);
      ghost var m := state.accounts;
      RebuiltTimes(c, m, PoolOf(mempoolOrder, mempoolTx) + rolledBack, confirmed);
      InTimeOrderDiffer(c, PoolOf(mempoolOrder, mempoolTx) + rolledBack);
      var work := state.Clone();
      var newTx: map<Hash, Tx> := map[];
      var newOrder: seq<Hash> := [];
      KeptNothing(c, m);
      FilterNothing(keep, order);
      for i := 0 to |order|
        invariant Kept(c, m, Filter(keep, order[..i]), newOrder, newTx, work.accounts)
        invariant forall h :: h in newTx ==> c.txHash(newTx[h]) == h && newTx[h] in order[..i]
        invariant Total(work.accounts) < TWO64
      {
        var t := order[i];
        var h := c.txHash(t);
        FilterStep(keep, order, i);
        ghost var seen := Filter(keep, order[..i]);
        if h in confirmed || Verify(c, t).Some? {
          assert seen + [] == seen;
          continue;
        }
        NextIdIsNew(c, order, i, newTx);
        var kept := TryTx(work, t, seen, newOrder, newTx, h);
        if kept {
          newTx := newTx[h := t];
          newOrder := newOrder + [h];
        }
      }
      ghost var chosen := Filter(keep, order);
      KeptIsPool(c, m, chosen, newOrder, newTx, work.accounts);
      KeptChoice(c, m, chosen, newOrder, newTx, work.accounts);
      mempoolTx, mempoolOrder := newTx, newOrder;
      pending, pendingDirty := work, false;
    }

    /** After a block on top of the tip: what it confirmed leaves, what no longer applies is dropped. */
    method DropConfirmed(newTip: Entry)
      requires EntriesOk(c, mempoolTx) && Indexed(mempoolOrder, mempoolTx) && Total(state.accounts) < TWO64
      modifies this`mempoolTx, this`mempoolOrder, this`pending, this`pendingDirty
      ensures PoolOf(mempoolOrder, mempoolTx)
           == Greedy(state.accounts, PoolOf(old(mempoolOrder), WithoutIds(c, old(mempoolTx), newTip.block.txs))).kept
      ensures PoolOk(c, state.accounts, mempoolOrder, mempoolTx)
      ensures (pending == old(pending) && pendingDirty) ||
              (fresh(pending) && Total(pending.accounts) < TWO64 &&
               Same(pending.accounts, ApplyAll(state.accounts, PoolOf(mempoolOrder, mempoolTx)).value))
    {
      hide Greedy, PoolOf, ApplyAll, Same, Verify, Total, Ledger.ApplyTx, WithoutIds;
      var dropped := false;
      var txs := newTip.block.txs;
      ghost var table := mempoolTx;
      WithoutNoIds(c, table);
      assert txs[..0] == [];
      for i := 0 to |txs|
        invariant mempoolTx == WithoutIds(c, table, txs[..i]) && mempoolOrder == old(mempoolOrder)
        invariant EntriesOk(c, mempoolTx)
        invariant pending == old(pending) && pendingDirty == old(pendingDirty)
        invariant !dropped ==> mempoolTx == table
      {
        assert txs[..i + 1] == txs[..i] + [txs[i]];
        WithoutIdsStep(c, table, txs[..i], txs[i]);
        var h := c.txHash(txs[i]);
        if h in mempoolTx {
          mempoolTx := mempoolTx - {h};
          dropped := true;
        }
      }
      assert txs[..|txs|] == txs;
      if dropped || |mempoolTx| > 0 {
        RevalidateMempool();
      } else {
        EmptyPool(c, state.accounts, mempoolOrder, mempoolTx);
        pendingDirty := true;
      }
    }

    /** The accounts as everything pending leaves them. */
    ghost function AfterPool(): Accounts
      requires PoolOk(c, state.accounts, mempoolOrder, mempoolTx)
      reads `state, `mempoolOrder, `mempoolTx, state
    {
      ApplyAll(state.accounts, PoolOf(mempoolOrder, mempoolTx)).value
    }

    /** Whether the cached pending state is clean and is what everything pending leaves. */
    ghost predicate Exact()
      requires PoolOk(c, state.accounts, mempoolOrder, mempoolTx)
      reads `state, `mempoolOrder, `mempoolTx, `pending, `pendingDirty, state, pending
    {
      pending != null && !pendingDirty && Same(pending.accounts, AfterPool())
    }

    /** What the next reader of the pending state sees. */
    ghost function Cached(): Accounts
      requires PoolOk(c, state.accounts, mempoolOrder, mempoolTx)
      reads `state, `mempoolOrder, `mempoolTx, `pending, `pendingDirty, state, pending
    {
      if pending != null && !pendingDirty then pending.accounts else AfterPool()
    }

    /** The accounts after everything pending: the cache when it is clean, else computed afresh. */
    method PendingState() returns (work: State)
      requires Core()
      modifies `pending, `pendingDirty
      ensures Core() && pending == work && !pendingDirty && (fresh(work) || work == old(pending))
      ensures Same(work.accounts, old(Cached()))
      ensures Exact() <==> Same(old(Cached()), AfterPool())
    {
      hide PoolOf, ApplyAll, Same, Total, TreePart, LedgerPart, IdealHashes, SoundParams, PoolOk;
      SameSelf(Cached());
      if !pendingDirty && pending != null {
        return pending;
      }
      StateSmall();
      work := ComputePending();
      pending, pendingDirty := work, false;
    }

    /** Applies everything pending to a copy of the accounts. */
    method ComputePending() returns (work: State)
      requires PoolOk(c, state.accounts, mempoolOrder, mempoolTx) && Total(state.accounts) < TWO64
      ensures fresh(work) && Total(work.accounts) < TWO64
      ensures Same(work.accounts, ApplyAll(state.accounts, PoolOf(mempoolOrder, mempoolTx)).value)
    {
      hide Ledger.ApplyTx, Verify, Greedy, PoolOf, ApplyAll, Same, Total, EntriesOk, Indexed;
      work := state.Clone();
      ghost var m := state.accounts;
      PoolOfPrefix(mempoolOrder, mempoolTx);
      SameSelf(m);
      GreedyNothing(m);
      for i := 0 to |mempoolOrder|
        invariant Same(work.accounts, Greedy(m, PoolOf(mempoolOrder[..i], mempoolTx)).accounts)
        invariant Total(work.accounts) < TWO64
      {
        var h := mempoolOrder[i];
        PoolStep(mempoolOrder, mempoolTx, i);
        ghost var seen := PoolOf(mempoolOrder[..i], mempoolTx);
        if h in mempoolTx {
          TryPending(work, mempoolTx[h], seen);
        } else {
          assert seen + [] == seen;
        }
      }
      GreedyKeepsAll(m, PoolOf(mempoolOrder, mempoolTx));
    }

    lemma StateSmall()
      requires LedgerPart() && SoundParams(p)
      ensures Total(state.accounts) < TWO64
    {
      AccountsSmall(c, p, blocks, tip, state.accounts, chainHeights);
    }

    method TryPending(work: State, t: Tx, ghost seen: seq<Tx>)
      requires work != state && Total(work.accounts) < TWO64
      requires Same(work.accounts, Greedy(state.accounts, seen).accounts)
      modifies work
      ensures Total(work.accounts) < TWO64
      ensures Same(work.accounts, Greedy(state.accounts, seen + [t]).accounts)
    {
      hide Ledger.ApplyTx, Verify, Same, Touch, Greedy, Total;
      ghost var before := work.accounts;
      WorkStaysSmall(before, t);
      SameGreedyStep(state.accounts, seen, before, t);
      var err := work.ApplyTx(t);
      if err.Some? {
        TouchKeepsTotal(before, t.from);
        RefusalSame(before, t, work.accounts);
        SameTrans(work.accounts, before, Greedy(state.accounts, seen).accounts);
      }
    }

    // ----- switching chains -----

    /** Rejects a state-invalid block with its subtree; the active chain and every cache are untouched. */
    method RejectInvalid(x: Hash)
      requires Core() && Linked(blocks) && x in blocks
      requires !StateValid(c, p, blocks, x)
      modifies this`blocks, this`rejected
      ensures Core() && x !in blocks && blocks.Keys <= old(blocks).Keys
      ensures Linked(blocks) && Agree(old(blocks), blocks)
      ensures Evolves(c, p, old(blocks), old(rejected), blocks, rejected, {})
      ensures OnlyDescendantsLost(old(blocks), blocks, x)
              && rejected == old(rejected) + (old(blocks).Keys - blocks.Keys)
    {
      hide TreeInv, IdealHashes, SoundParams, Linked, Ranked, Rooted, StateValid, Evolves, TipOk, CheckpointOk,
           Descendants, OnlyDescendantsLost, PoolOk, Same, ApplyAll, PoolOf;
      TreeFacts(c, p, blocks, rejected);
      RejectEvolves(c, p, blocks, rejected, x);
      DescendantsLost(blocks, x);
      ghost var t, r := blocks, rejected;
      RejectSubtree(x);
      TreeFacts(c, p, blocks, rejected);
      TipKept(c, p, t, r, blocks, rejected, {}, tip, state.accounts, chainHeights);
      forall h | h in checkpoints ensures CheckpointOk(c, p, blocks, h, checkpoints[h].accounts) {
        CheckpointKept(c, p, t, r, blocks, rejected, {}, h, checkpoints[h].accounts);
      }
    }

    method TakeCheckpoint(h: Hash, work: State)
      requires Core() && CheckpointOk(c, p, blocks, h, work.accounts) && work !in checkpoints.Values
      modifies this`checkpoints
      ensures Core() && work !in checkpoints.Values
      ensures checkpoints.Keys == old(checkpoints).Keys + {h}
    {
      hide Environment, TreePart, PoolPart, TipOk, CheckpointOk;
      var copy := work.Clone();
      checkpoints := checkpoints[h := copy];
    }

    /** Applies the rest of a path to accounts that already hold its beginning, taking checkpoints;
        the first block that fails is rejected with its subtree. */
    method ReplayTail(work: State, tail: seq<Entry>, ghost target: Hash) returns (ok: bool)
      requires Core() && Linked(blocks) && target in blocks
      requires work != state && work != pending && work !in checkpoints.Values
      requires |tail| <= |Path(blocks, target)| && tail == Path(blocks, target)[|Path(blocks, target)| - |tail|..]
      requires Replay(c, p, Path(blocks, target)[..|Path(blocks, target)| - |tail|]) == Ok(work.accounts)
      modifies work, this`checkpoints, this`blocks, this`rejected
      ensures Core() && Linked(blocks)
      ensures ok ==> blocks == old(blocks) && rejected == old(rejected)
      ensures ok ==> Replay(c, p, Path(blocks, target)) == Ok(work.accounts)
      ensures work !in checkpoints.Values
      ensures ok ==> checkpoints.Keys == old(checkpoints).Keys + Checkpointed(tail)
      ensures !ok ==> !StateValid(c, p, old(blocks), target) && target !in blocks
      ensures !ok ==> FirstFailureRejected(c, p, old(blocks), old(rejected), blocks, rejected, target)
      ensures Evolves(c, p, old(blocks), old(rejected), blocks, rejected, {}) && blocks.Keys <= old(blocks).Keys
    {
      hide TreeInv, IdealHashes, SoundParams, Linked, StateValid, Evolves, CheckpointOk, Replay, Path,
           Ledger.ApplyBlock, OnPath, LedgerPart, PoolPart, CheckpointPart, Apart, Checkpointed;
      ghost var t, full := blocks, Path(blocks, target);
      CheckpointedNone(tail);
      ghost var start := |full| - |tail|;
      EvolvesNothing(c, p, blocks, rejected, {});
      for i := 0 to |tail|
        invariant Replay(c, p, full[..start + i]) == Ok(work.accounts)
        invariant Core() && work !in checkpoints.Values
        invariant blocks == t && rejected == old(rejected)
        invariant checkpoints.Keys == old(checkpoints).Keys + Checkpointed(tail[..i])
      {
        CheckpointedStep(tail, i);
        var e := tail[i];
        assert e == full[start + i];
        ReplayStep(c, p, full, start + i);
        if e.block.height == 0 {
          continue;
        }
        var err := work.ApplyBlock(c, p, e.block);
        if err.Some? {
          FailsHere(c, p, t, target, start + i);
          assert err.value != BalanceOverflow;
          RejectInvalid(e.hash);
          LostWithAncestor(c, p, t, blocks, target, e.hash);
          return false;
        }
        PathShape(t, target, start + i);
        if e.block.height % CHECKPOINT_INTERVAL == 0 {
          CheckpointHere(c, p, t, target, start + i, work.accounts);
          TakeCheckpoint(e.hash, work);
        }
      }
      assert full[..start + |tail|] == full && tail[..|tail|] == tail;
      ok := true;
    }

    /** Where a replay leaves checkpoints: at every hundredth height but genesis. */
    ghost function Checkpointed(path: seq<Entry>): set<Hash> {
      set e | e in path && e.block.height != 0 && e.block.height % CHECKPOINT_INTERVAL == 0 :: e.hash
    }

    lemma CheckpointedHeights(path: seq<Entry>, h: Hash)
      ensures h in Checkpointed(path) <==>
              exists i :: 0 <= i < |path| && path[i].hash == h && path[i].block.height > 0
                          && path[i].block.height % 100 == 0
    {
    }

    lemma CheckpointedNone(path: seq<Entry>)
      ensures Checkpointed(path[..0]) == {}
    {
    }

    lemma CheckpointedStep(path: seq<Entry>, i: nat)
      requires i < |path|
      ensures var e := path[i];
              Checkpointed(path[..i + 1]) == Checkpointed(path[..i])
                                             + if e.block.height != 0 && e.block.height % CHECKPOINT_INTERVAL == 0
                                               then {e.hash} else {}
    {
      assert path[..i + 1] == path[..i] + [path[i]];
    }

    /** A copy of the deepest checkpoint on the path, or nothing at all. */
    method BaseState(newPath: seq<Entry>) returns (work: State)
      ensures fresh(work)
      ensures var k := Covered(newPath, checkpoints.Keys);
              work.accounts == if k == 0 then map[] else checkpoints[newPath[k - 1].hash].accounts
    {
      hide Covered;
      var best: Option<Entry> := None;
      CoveredNone(newPath, checkpoints.Keys);
      for i := 0 to |newPath|
        invariant best == if Covered(newPath[..i], checkpoints.Keys) == 0 then None
                          else Some(newPath[Covered(newPath[..i], checkpoints.Keys) - 1])
      {
        CoveredStep(newPath, checkpoints.Keys, i);
        if newPath[i].hash in checkpoints {
          best := Some(newPath[i]);
        }
      }
      assert newPath[..|newPath|] == newPath;
      if best.None? {
        work := new State();
      } else {
        work := checkpoints[best.value.hash].Clone();
      }
    }

    /** The height after the deepest checkpoint on the path. */
    method StartHeight(newPath: seq<Entry>) returns (start: nat)
      requires HeightsFromGenesis(newPath)
      ensures start == Covered(newPath, checkpoints.Keys)
    {
      hide Covered;
      start := 0;
      CoveredNone(newPath, checkpoints.Keys);
      for i := 0 to |newPath|
        invariant start == Covered(newPath[..i], checkpoints.Keys)
      {
        CoveredStep(newPath, checkpoints.Keys, i);
        if newPath[i].hash in checkpoints {
          start := newPath[i].block.height + 1;
        }
      }
      assert newPath[..|newPath|] == newPath;
    }

    /** The entries from a height on. */
    method TailAfter(path: seq<Entry>, fromHeight: nat) returns (out: seq<Entry>)
      ensures out == Filter(FromHeight(fromHeight), path)
    {
      out := [];
      assert path[..0] == [];
      for i := 0 to |path|
        invariant out == Filter(FromHeight(fromHeight), path[..i])
      {
        assert path[..i + 1] == path[..i] + [path[i]];
        FilterSnoc(FromHeight(fromHeight), path[..i], path[i]);
        if path[i].block.height >= fromHeight {
          out := out + [path[i]];
        }
      }
      assert path[..|path|] == path;
    }

    /** The first entry of the new path that is also on the old one. */
    method FindFork(newPath: seq<Entry>, oldSet: set<Hash>) returns (fork: Option<Entry>)
      ensures fork.None? ==> forall e :: e in newPath ==> e.hash !in oldSet
      ensures fork.Some? ==> exists k :: 0 <= k < |newPath| && fork.value == newPath[k] && newPath[k].hash in oldSet
                                         && forall j :: 0 <= j < k ==> newPath[j].hash !in oldSet
    {
      for i := 0 to |newPath|
        invariant forall j :: 0 <= j < i ==> newPath[j].hash !in oldSet
      {
        if newPath[i].hash in oldSet {
          return Some(newPath[i]);
        }
      }
      fork := None;
    }

    /** The transactions of the abandoned blocks, newest block first. */
    method CollectRolledBack(oldPath: seq<Entry>, forkHeight: nat, ghost path: seq<Entry>) returns (txs: seq<Tx>)
      requires oldPath == Reversed(path) && HeightsFromGenesis(path)
      ensures txs == RolledBack(path, forkHeight + 1)
    {
      hide RolledBack;
      txs := [];
      ghost var n := |path|;
      assert path[..n] == path;
      for i := 0 to |oldPath|
        invariant RolledBack(path, forkHeight + 1) == txs + RolledBack(path[..n - i], forkHeight + 1)
      {
        var e := oldPath[i];
        RolledBackStep(path, n - i, forkHeight + 1);
        if e.block.height > forkHeight {
          txs := txs + e.block.txs;
        }
      }
      RolledBackEnd(forkHeight + 1);
    }

    /** Installs a new active chain whose replay is at hand. */
    method CommitChain(work: State, newPath: seq<Entry>, rolledBack: seq<Tx>)
      requires Core() && Linked(blocks) && work !in checkpoints.Values && work != pending
      requires |newPath| > 0 && newPath[|newPath| - 1].hash in blocks
      requires newPath == Path(blocks, newPath[|newPath| - 1].hash)
      requires Replay(c, p, newPath) == Ok(work.accounts)
      modifies this`chainHeights, this`checkpoints, this`state, this`tip,
               this`mempoolTx, this`mempoolOrder, this`pending, this`pendingDirty
      ensures tip == Some(newPath[|newPath| - 1]) && state == work
      ensures Core()
      ensures pending == old(pending) || fresh(pending)
      ensures forall h :: h in checkpoints <==> h in old(checkpoints) && exists e :: e in newPath && e.hash == h
      ensures PoolOf(mempoolOrder, mempoolTx)
           == Rebuilt(c, state.accounts, PoolOf(old(mempoolOrder), old(mempoolTx)) + rolledBack,
              ConfirmedIds(c, newPath)).kept
    {
      hide TreeInv, IdealHashes, SoundParams, Linked, Replay, Path, PoolOf, Rebuilt, ConfirmedIds, Same,
           ApplyAll, PoolOk, TipOk, Total, HeightsFromGenesis, CheckpointPart, HeightIndex;
      var newTip := newPath[|newPath| - 1];
      CommitFacts(c, p, blocks, newTip.hash, work.accounts);
      var heights := IndexHeights(newPath);
      PruneCheckpoints(newPath);
      MoveTip(work, newTip, heights);
      RebuildMempool(rolledBack);
    }

    /** Hands the active chain over to new accounts, a new tip and a new height index. */
    method MoveTip(work: State, newTip: Entry, heights: map<u64, Hash>)
      requires Environment() && CheckpointPart() && Apart() && work !in checkpoints.Values && work != pending
      requires TipOk(c, p, blocks, Some(newTip), work.accounts, heights)
      modifies this`chainHeights, this`state, this`tip, this`pendingDirty
      ensures LedgerPart() && Apart() && tip == Some(newTip) && state == work && chainHeights == heights && pendingDirty
    {
      hide IdealHashes, SoundParams, TipOk, CheckpointOk;
      chainHeights := heights;
      state := work;
      tip := Some(newTip);
      pendingDirty := true;
    }

    method IndexHeights(newPath: seq<Entry>) returns (heights: map<u64, Hash>)
      requires HeightsFromGenesis(newPath) && |newPath| <= TWO64
      ensures heights == HeightIndex(newPath)
    {
      heights := map[];
      for i := 0 to |newPath|
        invariant heights == HeightIndex(newPath[..i])
      {
        heights := heights[newPath[i].block.height := newPath[i].hash];
      }
      assert newPath[..|newPath|] == newPath;
    }

    method PruneCheckpoints(newPath: seq<Entry>)
      requires p.halvingInterval > 0 && CheckpointPart()
      modifies this`checkpoints
      ensures CheckpointPart() && checkpoints.Values <= old(checkpoints).Values
      ensures forall h :: h in checkpoints <==> h in old(checkpoints) && exists e :: e in newPath && e.hash == h
    {
      hide CheckpointOk;
      var pathSet: set<Hash> := {};
      for i := 0 to |newPath|
        invariant forall h :: h in pathSet <==> exists j :: 0 <= j < i && newPath[j].hash == h
      {
        pathSet := pathSet + {newPath[i].hash};
      }
      forall h ensures h in pathSet <==> exists e :: e in newPath && e.hash == h {
        if exists e :: e in newPath && e.hash == h {
          var e :| e in newPath && e.hash == h;
          var j :| 0 <= j < |newPath| && newPath[j] == e;
        }
      }
      var left := checkpoints.Keys;
      ghost var before := checkpoints;
      while left != {}
        invariant left <= before.Keys
        invariant forall h :: h in checkpoints <==> h in before && (h in left || h in pathSet)
        invariant forall h :: h in checkpoints ==> checkpoints[h] == before[h]
        decreases left
      {
        var h :| h in left;
        left := left - {h};
        if h !in pathSet {
          checkpoints := checkpoints - {h};
        }
      }
    }

    /** The first selection: replay the whole path from nothing. */
    method SwitchFresh(newTip: Entry) returns (ok: bool)
      requires Core() && tip.None? && newTip.hash in blocks && blocks[newTip.hash] == newTip
      modifies this
      ensures Core() && orphans == old(orphans) && booting == old(booting) && seenTx == old(seenTx)
      ensures pending == old(pending) || fresh(pending)
      ensures SwitchOutcome(c, p, old(blocks), old(rejected), old(tip), blocks, rejected, tip, newTip, ok)
    {
      hide TreeInv, IdealHashes, SoundParams, Linked, Ranked, Rooted, Replay, Path, LedgerPart, PoolPart,
           CheckpointPart, Apart, Evolves, PoolOf, Rebuilt, ConfirmedIds, SwitchOutcome, FirstFailureRejected,
           StateValid;
      TreeFacts(c, p, blocks, rejected);
      EvolvesNothing(c, p, blocks, rejected, {});
      var newPath := PathFromGenesis(newTip);
      var work := new State();
      ReplayNothing(c, p, newPath);
      ok := ReplayTail(work, newPath, newTip.hash);
      if ok {
        SwitchWorks(c, p, blocks, rejected, None, newTip);
        CommitChain(work, newPath, []);
      } else {
        SwitchFails(c, p, old(blocks), old(rejected), None, blocks, rejected, newTip);
      }
    }

    /** The fast path: one block on top of the tip, applied to a copy of the accounts. */
    method ExtendTip(newTip: Entry) returns (ok: bool)
      requires Core() && tip.Some? && newTip.hash in blocks && blocks[newTip.hash] == newTip
      requires newTip.block.prevHash == tip.value.hash
      modifies this
      ensures Core() && orphans == old(orphans) && booting == old(booting) && seenTx == old(seenTx)
      ensures pending == old(pending) || fresh(pending)
      ensures SwitchOutcome(c, p, old(blocks), old(rejected), old(tip), blocks, rejected, tip, newTip, ok)
      ensures ok ==>
                PoolOf(mempoolOrder, mempoolTx)
                == Greedy(state.accounts,
                   PoolOf(old(mempoolOrder), WithoutIds(c, old(mempoolTx), newTip.block.txs))).kept
      ensures ok ==> checkpoints.Keys == old(checkpoints).Keys + Checkpointed([newTip])
    {
      hide TreeInv, IdealHashes, SoundParams, Linked, Ranked, Rooted, CheckpointOk, PoolOf, Greedy, WithoutIds,
           TipOk, Evolves, Ledger.ApplyBlock, StateValid, LedgerPart, PoolPart, CheckpointPart, Apart,
           OnlyDescendantsLost;
      TreeFacts(c, p, blocks, rejected);
      EvolvesNothing(c, p, blocks, rejected, {});
      TipStored();
      var work := state.Clone();
      var err := work.ApplyBlock(c, p, newTip.block);
      if err.Some? {
        ExtendTipFails(c, p, blocks, tip.value, newTip, state.accounts, chainHeights);
        assert err.value != BalanceOverflow;
        RejectInvalid(newTip.hash);
        return false;
      }
      CommitExtension(work, newTip);
      ok := true;
    }

    /** Keeps a copy of the new accounts when the new tip is at a checkpoint height. */
    method CheckpointTip(work: State, newTip: Entry)
      requires Core() && newTip.block.height > 0
      requires newTip.block.height % CHECKPOINT_INTERVAL == 0 ==> CheckpointOk(c, p, blocks, newTip.hash, work.accounts)
      requires work !in checkpoints.Values
      modifies this`checkpoints
      ensures Core() && work !in checkpoints.Values
      ensures checkpoints.Keys == old(checkpoints).Keys + Checkpointed([newTip])
    {
      hide Core, CheckpointOk;
      assert [newTip][..1] == [newTip];
      CheckpointedNone([newTip]);
      CheckpointedStep([newTip], 0);
      if newTip.block.height % CHECKPOINT_INTERVAL == 0 {
        TakeCheckpoint(newTip.hash, work);
      }
    }

    /** Installs one more block on the active chain. */
    method CommitExtension(work: State, newTip: Entry)
      requires Core() && tip.Some? && newTip.hash in blocks && blocks[newTip.hash] == newTip
      requires newTip.block.prevHash == tip.value.hash && work !in checkpoints.Values && work != pending
      requires Ledger.ApplyBlock(c, p, state.accounts, newTip.block) == Ok(work.accounts)
      modifies this`chainHeights, this`checkpoints, this`state, this`tip,
               this`mempoolTx, this`mempoolOrder, this`pending, this`pendingDirty
      ensures Core() && tip == Some(newTip) && state == work && Linked(blocks) && StateValid(c, p, blocks, newTip.hash)
      ensures pending == old(pending) || fresh(pending)
      ensures PoolOf(mempoolOrder, mempoolTx)
           == Greedy(state.accounts, PoolOf(old(mempoolOrder), WithoutIds(c, old(mempoolTx), newTip.block.txs))).kept
      ensures checkpoints.Keys == old(checkpoints).Keys + Checkpointed([newTip])
    {
      hide TreeInv, IdealHashes, SoundParams, Linked, Ranked, Rooted, CheckpointOk, PoolOf, Greedy, WithoutIds,
           Same, ApplyAll, TipOk, Ledger.ApplyBlock, EntriesOk, Indexed, Total, StateValid, CheckpointPart,
           Checkpointed;
      TreeFacts(c, p, blocks, rejected);
      TipStored();
      ExtendTipOk(c, p, blocks, tip.value, newTip, state.accounts, chainHeights, work.accounts);
      CheckpointTip(work, newTip);
      MoveTip(work, newTip, chainHeights[newTip.block.height := newTip.hash]);
      AccountsSmall(c, p, blocks, tip, state.accounts, chainHeights);
      TipStateValid(c, p, blocks, newTip, state.accounts, chainHeights);
      SettlePool(newTip);
    }

    /** Brings the mempool in line with a tip that moved up by one block. */
    method SettlePool(newTip: Entry)
      requires Environment() && TreePart() && LedgerPart() && Apart()
      requires EntriesOk(c, mempoolTx) && Indexed(mempoolOrder, mempoolTx) && Total(state.accounts) < TWO64
      requires pending != null ==> Total(pending.accounts) < TWO64
      modifies this`mempoolTx, this`mempoolOrder, this`pending, this`pendingDirty
      ensures Core() && (pending == old(pending) || fresh(pending))
      ensures PoolOf(mempoolOrder, mempoolTx)
           == Greedy(state.accounts, PoolOf(old(mempoolOrder), WithoutIds(c, old(mempoolTx), newTip.block.txs))).kept
    {
      hide TreePart, LedgerPart, IdealHashes, SoundParams, PoolOf, Greedy, WithoutIds, Same, ApplyAll, EntriesOk,
           Indexed, Total, PoolOk;
      DropConfirmed(newTip);
    }

    /** The slow path: replay the new branch from the deepest checkpoint on it, then carry the
        abandoned transactions over. The outcome is as if they were taken back to the true fork. */
    method Reorg(newTip: Entry) returns (ok: bool)
      requires Core() && tip.Some? && newTip.hash in blocks && blocks[newTip.hash] == newTip
      modifies this
      ensures Core() && orphans == old(orphans) && booting == old(booting) && seenTx == old(seenTx)
      ensures pending == old(pending) || fresh(pending)
      ensures SwitchOutcome(c, p, old(blocks), old(rejected), old(tip), blocks, rejected, tip, newTip, ok)
      ensures Linked(old(blocks)) && old(tip).value.hash in old(blocks)
      ensures ok ==>
                var oldPath := Path(old(blocks), old(tip).value.hash);
                var newPath := Path(blocks, newTip.hash);
                PoolOf(mempoolOrder, mempoolTx)
                == Rebuilt(c, state.accounts,
                           PoolOf(old(mempoolOrder), old(mempoolTx)) + RolledBack(oldPath, CommonLen(oldPath, newPath)),
                           ConfirmedIds(c, newPath)).kept
    {
      hide TreeInv, IdealHashes, SoundParams, Linked, Ranked, Rooted, Replay, Path, LedgerPart, PoolPart,
           CheckpointPart, Apart, Evolves, PoolOf, Rebuilt, ConfirmedIds, RolledBack, CommonLen, Genesis,
           GenesisHash, HeightsFromGenesis, Covered, SwitchOutcome, FirstFailureRejected, StateValid;
      TreeFacts(c, p, blocks, rejected);
      EvolvesNothing(c, p, blocks, rejected, {});
      TipStored();
      var newPath := PathFromGenesis(newTip);
      var oldPath := PathToGenesis(tip.value);
      ghost var oldFull := Path(blocks, tip.value.hash);
      PathHeights(blocks, newTip.hash);
      PathHeights(blocks, tip.value.hash);
      var fork := ForkOf(newPath, oldPath, newTip, tip.value);
      if fork.None? {
        return false;
      }
      var work, tail := Base(newPath, newTip);
      ok := ReplayTail(work, tail, newTip.hash);
      if !ok {
        SwitchFails(c, p, old(blocks), old(rejected), tip, blocks, rejected, newTip);
        return;
      }
      SwitchWorks(c, p, blocks, rejected, tip, newTip);
      CommitReorg(work, newPath, oldPath, fork.value.block.height, oldFull);
    }

    /** Commits the new chain with everything above the fork found rolled back. */
    method CommitReorg(work: State, newPath: seq<Entry>, oldPath: seq<Entry>, forkHeight: nat,
                       ghost oldFull: seq<Entry>)
      requires Core() && Linked(blocks) && work !in checkpoints.Values && work != pending
      requires |newPath| > 0 && newPath[|newPath| - 1].hash in blocks
      requires newPath == Path(blocks, newPath[|newPath| - 1].hash)
      requires Replay(c, p, newPath) == Ok(work.accounts)
      requires oldPath == Reversed(oldFull) && HeightsFromGenesis(oldFull) && forkHeight == 0
      requires |oldFull| > 0 && oldFull[0] == newPath[0]
      modifies this`chainHeights, this`checkpoints, this`state, this`tip,
               this`mempoolTx, this`mempoolOrder, this`pending, this`pendingDirty
      ensures tip == Some(newPath[|newPath| - 1]) && state == work
      ensures Core() && (pending == old(pending) || fresh(pending))
      ensures PoolOf(mempoolOrder, mempoolTx)
           == Rebuilt(c, state.accounts,
                      PoolOf(old(mempoolOrder), old(mempoolTx)) + RolledBack(oldFull, CommonLen(oldFull, newPath)),
                      ConfirmedIds(c, newPath)).kept
    {
      hide Core, Linked, Path, Replay, Reversed, HeightsFromGenesis, RolledBack, CommonLen, PoolOf, Rebuilt,
           ConfirmedIds;
      var rolledBack := CollectRolledBack(oldPath, forkHeight, oldFull);
      GenesisForkIsFine(c, work.accounts, PoolOf(mempoolOrder, mempoolTx), oldFull, newPath);
      CommitChain(work, newPath, rolledBack);
    }

    lemma TipStored()
      requires LedgerPart() && tip.Some?
      ensures Linked(blocks) && tip.value.hash in blocks && blocks[tip.value.hash] == tip.value
      ensures TipOk(c, p, blocks, tip, state.accounts, chainHeights)
    {
    }

    method ForkOf(newPath: seq<Entry>, oldPath: seq<Entry>, ghost e: Entry,
                  ghost f: Entry) returns (fork: Option<Entry>)
      requires Environment() && TreePart() && Linked(blocks)
      requires e.hash in blocks && f.hash in blocks
      requires newPath == Path(blocks, e.hash) && oldPath == Reversed(Path(blocks, f.hash))
      ensures fork == Some(newPath[0]) && newPath[0] == Path(blocks, f.hash)[0] && newPath[0].block.height == 0
    {
      hide TreeInv, IdealHashes, SoundParams, Linked, Path, GenesisHash, Reversed;
      SameRoot(c, p, blocks, rejected, e.hash);
      SameRoot(c, p, blocks, rejected, f.hash);
      var oldSet := HashSet(oldPath);
      InReversed(Path(blocks, f.hash), Path(blocks, f.hash)[0]);
      fork := FindFork(newPath, oldSet);
    }

    /** The accounts to start replaying from, and the part of the path left to replay. */
    method Base(newPath: seq<Entry>, ghost newTip: Entry) returns (work: State, tail: seq<Entry>)
      requires Environment() && LedgerPart() && Linked(blocks)
      requires newTip.hash in blocks && newPath == Path(blocks, newTip.hash) && HeightsFromGenesis(newPath)
      ensures fresh(work) && |tail| <= |newPath| && tail == newPath[|newPath| - |tail|..]
      ensures Replay(c, p, newPath[..|newPath| - |tail|]) == Ok(work.accounts)
    {
      hide IdealHashes, SoundParams, Linked, Path, Replay, CheckpointOk, TipOk, HeightsFromGenesis;
      work := BaseState(newPath);
      var start := StartHeight(newPath);
      tail := TailAfter(newPath, start);
      FromHeightIsSuffix(newPath, start);
      if start > 0 {
        CheckpointCovers(c, p, blocks, newTip.hash, start, work.accounts);
      } else {
        ReplayNothing(c, p, newPath);
      }
    }

    method HashSet(path: seq<Entry>) returns (s: set<Hash>)
      ensures forall e :: e in path ==> e.hash in s
    {
      s := {};
      for i := 0 to |path|
        invariant forall j :: 0 <= j < i ==> path[j].hash in s
      {
        s := s + {path[i].hash};
      }
    }

    /** Tries to make newTip the tip. */
    method SwitchChain(newTip: Entry) returns (ok: bool)
      requires Core() && newTip.hash in blocks && blocks[newTip.hash] == newTip
      modifies this
      ensures Core() && orphans == old(orphans) && booting == old(booting) && seenTx == old(seenTx)
      ensures pending == old(pending) || fresh(pending)
      ensures SwitchOutcome(c, p, old(blocks), old(rejected), old(tip), blocks, rejected, tip, newTip, ok)
    {
      hide *;
      if tip.None? {
        ok := SwitchFresh(newTip);
      } else if newTip.block.prevHash == tip.value.hash {
        ok := ExtendTip(newTip);
      } else {
        ok := Reorg(newTip);
      }
    }

    /** Scans the whole tree, in whatever order, for the heaviest block that is not rejected. */
    method FindBest() returns (best: Option<Entry>)
      requires Environment() && TreePart()
      ensures best.Some? && Best(blocks, best.value)
      ensures forall h :: h in blocks && h != best.value.hash ==>
                blocks[h].work < best.value.work || (blocks[h].work == best.value.work && best.value.hash < h)
    {
      hide TreeInv, IdealHashes, SoundParams, Better, Linked, Ranked, Rooted;
      RejectedApart(c, p, blocks, rejected);
      TreeFacts(c, p, blocks, rejected);
      best := None;
      var left := blocks.Keys;
      while left != {}
        invariant left <= blocks.Keys
        invariant best.None? ==> left == blocks.Keys
        invariant best.Some? ==> best.value.hash in blocks && best.value.hash !in left
                                 && blocks[best.value.hash] == best.value
        invariant best.Some? ==>
                    forall h :: h in blocks && h !in left && h != best.value.hash ==> Better(best.value, blocks[h])
        decreases left
      {
        var h :| h in left;
        left := left - {h};
        var e := blocks[h];
        if e.hash in rejected {
          continue;
        }
        if best.None? || Better(e, best.value) {
          if best.Some? {
            ghost var f := best.value;
            forall g | g in blocks && g !in left && g != e.hash ensures Better(e, blocks[g]) {
              if g != f.hash { BetterTransitive(e, f, blocks[g]); }
            }
          }
          best := Some(e);
        } else {
          BetterTotal(e, best.value);
        }
      }
      forall h | h in blocks && h != best.value.hash
        ensures blocks[h].work < best.value.work || (blocks[h].work == best.value.work && best.value.hash < h)
      {
        BestWrittenOut(blocks, best.value, h);
      }
    }

    /** Switches to the heaviest stored block. A failed switch is not retried. */
    method SelectTip() returns (ghost best: Entry)
      requires Core()
      modifies this
      ensures Core() && orphans == old(orphans) && booting == old(booting) && seenTx == old(seenTx)
      ensures pending == old(pending) || fresh(pending)
      ensures Selection(c, p, old(blocks), old(rejected), old(tip), blocks, rejected, tip, best)
    {
      hide TreeInv, IdealHashes, SoundParams, CheckpointOk, PoolOk, TipOk, Same, ApplyAll, PoolOf, SwitchOutcome,
           Better;
      var found := FindBest();
      best := found.value;
      if found.None? || tip == found {
        return;
      }
      var ok := SwitchChain(found.value);
    }

    // ----- inserting blocks -----

    /** Buffers a block whose parent is unknown, unless it is buffered already or the buffer is full. */
    method AddOrphan(b: Block)
      modifies this`orphans
      ensures orphans == AddedOrphan(c, old(orphans), b)
    {
      hide BlockHash, OrphanCount;
      var h := BlockHash(c, b);
      var total := 0;
      var left := orphans.Keys;
      ghost var o := orphans;
      NoOrphans(o);
      while left != {}
        invariant left <= o.Keys && orphans == o
        invariant total == OrphanCount(o - left)
        invariant forall q, d :: q in o && q !in left && d in o[q] ==> BlockHash(c, d) != h
        decreases left
      {
        var q :| q in left;
        OrphanCountVisit(o, left, q);
        left := left - {q};
        var list := orphans[q];
        for i := 0 to |list|
          invariant forall d :: d in list[..i] ==> BlockHash(c, d) != h
        {
          if BlockHash(c, list[i]) == h {
            return;
          }
        }
        assert list[..|list|] == list;
        total := total + |list|;
      }
      assert o - {} == o;
      if total >= MAX_ORPHANS {
        return;
      }
      orphans := orphans[b.prevHash := (if b.prevHash in orphans then orphans[b.prevHash] else []) + [b]];
    }

    method StoreBlock(e: Entry)
      requires Core() && Linked(blocks) && e.hash !in blocks && e.hash !in rejected
      requires e.hash == BlockHash(c, e.block) && e.block.height > 0
      requires e.block.prevHash in blocks && Extends(c, p, Path(blocks, e.block.prevHash), e)
      modifies this`blocks
      ensures Core() && blocks == old(blocks)[e.hash := e] && Linked(blocks)
      ensures Evolves(c, p, old(blocks), rejected, blocks, rejected, {e.hash})
      ensures Path(blocks, e.hash) == Path(old(blocks), e.block.prevHash) + [e]
    {
      hide TreeInv, IdealHashes, SoundParams, Linked, Evolves, TipOk, CheckpointOk, PoolOk, Same, ApplyAll, PoolOf,
           Extends, BlockHash, Path;
      InsertEvolves(c, p, blocks, rejected, e);
      ghost var t := blocks;
      blocks := blocks[e.hash := e];
      TipKept(c, p, t, rejected, blocks, rejected, {e.hash}, tip, state.accounts, chainHeights);
      forall h | h in checkpoints ensures CheckpointOk(c, p, blocks, h, checkpoints[h].accounts) {
        CheckpointKept(c, p, t, rejected, blocks, rejected, {e.hash}, h, checkpoints[h].accounts);
      }
    }

    /** Settles the tip after everything an insertion of h brought in. */
    method SettleTip(h: Hash, ghost inserting: set<Hash>)
      requires Core() && ParentsMissing(orphans, blocks, {}) && (booting ==> tip.None?) && Linked(blocks)
      requires h !in inserting && InsertingChain(blocks, rejected, h, inserting + {h})
      requires OnlyPendingBetter(blocks, tip, inserting + {h})
      modifies this
      ensures Core() && orphans == old(orphans) && booting == old(booting) && seenTx == old(seenTx) && Linked(blocks)
      ensures pending == old(pending) || fresh(pending)
      ensures ParentsMissing(orphans, blocks, {}) && (booting ==> tip.None?)
      ensures OnlyPendingBetter(blocks, tip, inserting) && TipImproves(old(tip), tip)
      ensures Evolves(c, p, old(blocks), old(rejected), blocks, rejected, {})
      ensures !booting ==> exists best :: Selection(c, p, old(blocks), old(rejected), old(tip),
              blocks, rejected, tip, best)
      ensures booting ==> rejected == old(rejected)
    {
      hide TreeInv, IdealHashes, SoundParams, Linked, LedgerPart, PoolPart, CheckpointPart, Apart, Evolves, Selection,
           InsertingChain, ParentsMissing;
      if booting {
        EvolvesNothing(c, p, blocks, rejected, {});
        return;
      }
      if tip.Some? { TipStored(); }
      ghost var best := SelectTip();
      AfterSelect(c, p, old(blocks), old(rejected), old(tip), blocks, rejected, tip, best, h, inserting);
      EvolvesAgree(c, p, old(blocks), old(rejected), blocks, rejected, {});
      ParentsStillMissing(orphans, old(blocks), blocks, {});
    }

    /** Inserts a block. The clock reads now for it, and may give any of the readings for the orphans that
        follow it; under way are the blocks whose own insertion is waiting for this one. */
    method InsertBlock(b: Block, now: i64, readings: set<i64>,
                       ghost inserting: set<Hash>) returns (err: Option<InsertError>)
      requires Busy(inserting) && ParentsMissing(orphans, blocks, {}) && now in readings
      requires InsertingChain(blocks, rejected, b.prevHash, inserting)
      modifies this
      ensures Busy(inserting) && ParentsMissing(orphans, blocks, {}) && booting == old(booting) && seenTx == old(seenTx)
      ensures pending == old(pending) || fresh(pending)
      ensures Linked(old(blocks))
      ensures err == Verdict(c, p, old(blocks), old(rejected), PathOrNothing(old(blocks), b.prevHash), b, now)
      ensures BlockHash(c, b) in old(blocks) || (err.Some? && err.value != Orphan) ==> unchanged(this)
      ensures err == Some(Orphan) ==> unchanged(`blocks, `rejected, `tip, `state, `checkpoints, `chainHeights,
                                                `mempoolTx, `mempoolOrder, `pending, `pendingDirty)
      ensures err == Some(Orphan) ==> orphans == AddedOrphan(c, old(orphans), b)
      ensures Evolves(c, p, old(blocks), old(rejected), blocks, rejected,
              {BlockHash(c, b)} + OrphanIds(c, old(orphans)))
      ensures OrphanIds(c, orphans) <= OrphanIds(c, old(orphans))
              + if err == Some(Orphan) then {BlockHash(c, b)} else {}
      ensures OrphanCount(orphans) <= OrphanCount(old(orphans)) + if err == Some(Orphan) then 1 else 0
      ensures err.None? && BlockHash(c, b) !in old(blocks) ==>
                b.prevHash in old(blocks) && StoredOrInvalid(c, p, old(blocks), blocks, rejected, b)
      ensures err.None? && BlockHash(c, b) !in old(blocks) && BlockHash(c, b) !in old(orphans)
              && !booting && inserting == {} && old(tip).Some? ==>
                KeptByMerit(c, p, old(blocks), old(tip).value, b, blocks)
      ensures Fates(c, p, old(orphans), old(rejected), blocks, rejected, orphans, readings)
      ensures booting ==> rejected == old(rejected)
      ensures TipImproves(old(tip), tip)
      decreases OrphanCount(orphans), 2
    {
      hide TreeInv, IdealHashes, SoundParams, Linked, LedgerPart, PoolPart, CheckpointPart, Apart, Evolves,
           BlockHash, InsertingChain, OnlyPendingBetter, ParentsMissing, OrphansOk, CheckBlock, TipImproves,
           OrphanIds, StoredOrInvalid, AddedOrphan, EntryFor, Fates, KeptByMerit;
      var h := BlockHash(c, b);
      TipImprovesSelf(tip);
      FatesWaiting(c, p, orphans, rejected, blocks, orphans, readings);
      EvolvesNothing(c, p, blocks, rejected, {h} + OrphanIds(c, orphans));
      if h in blocks {
        return None;
      }
      if h in rejected {
        return Some(PreviouslyRejected);
      }
      if b.height == 0 {
        GenesisIsStored(c, p, blocks, rejected, h);
        if h != GenesisHash(c, p) {
          return Some(UnknownGenesis);
        }
      }
      if b.prevHash !in blocks {
        AddedOrphanOk(c, orphans, b);
        AddingKeeps(c, orphans, b);
        FatesWaiting(c, p, orphans, rejected, blocks, AddedOrphan(c, orphans, b), readings);
        StillMissing(c, orphans, b, blocks);
        AddOrphan(b);
        return Some(Orphan);
      }
      err := CheckNew(b, now);
      if err.None? {
        ParentEntry(c, p, blocks, rejected, b.prevHash);
        AcceptedExtends(c, p, Path(blocks, b.prevHash), b, now);
        Accept(b, h, readings, inserting);
      }
    }

    /** The checks of a block on its stored parent. */
    method CheckNew(b: Block, now: i64) returns (err: Option<InsertError>)
      requires Environment() && TreePart() && Linked(blocks) && b.prevHash in blocks
      ensures err == CheckBlock(c, p, Path(blocks, b.prevHash), b, now)
    {
      hide TreeInv, IdealHashes, SoundParams, Linked, ValidateBasic, AnchorOf, NextDifficulty, MeetsTarget, Path;
      ParentEntry(c, p, blocks, rejected, b.prevHash);
      var parent := blocks[b.prevHash];
      var basic := ValidateBasic(c, p, b, Some(parent.block), now);
      if basic.Some? {
        return Some(Invalid(basic.value));
      }
      var anchor := Anchor(parent);
      if b.difficulty != NextDifficulty(p, Some(parent.block), anchor) {
        return Some(WrongDifficulty);
      }
      if !MeetsTarget(c, b) {
        return Some(InvalidPoW);
      }
      err := None;
    }

    /** Stores a block that passed its checks, brings in the orphans that waited for it, then settles the tip. */
    method Accept(b: Block, h: Hash, readings: set<i64>, ghost inserting: set<Hash>)
      requires Busy(inserting) && ParentsMissing(orphans, blocks, {}) && readings != {}
      requires InsertingChain(blocks, rejected, b.prevHash, inserting)
      requires h == BlockHash(c, b) && h !in blocks && h !in rejected && b.height != 0 && b.prevHash in blocks
      requires Extends(c, p, Path(blocks, b.prevHash), EntryFor(c, blocks[b.prevHash], b))
      modifies this
      ensures Busy(inserting) && ParentsMissing(orphans, blocks, {}) && booting == old(booting) && seenTx == old(seenTx)
      ensures pending == old(pending) || fresh(pending)
      ensures Evolves(c, p, old(blocks), old(rejected), blocks, rejected, {h} + OrphanIds(c, old(orphans)))
      ensures OrphanIds(c, orphans) <= OrphanIds(c, old(orphans)) && OrphanCount(orphans) <= OrphanCount(old(orphans))
      ensures Linked(old(blocks)) && StoredOrInvalid(c, p, old(blocks), blocks, rejected, b)
      ensures !booting && inserting == {} && old(tip).Some? && h !in old(orphans) ==>
                KeptByMerit(c, p, old(blocks), old(tip).value, b, blocks)
      ensures Fates(c, p, old(orphans), old(rejected), blocks, rejected, orphans, readings)
      ensures booting ==> rejected == old(rejected)
      ensures TipImproves(old(tip), tip)
      decreases OrphanCount(orphans), 1
    {
      hide TreeInv, IdealHashes, SoundParams, Linked, LedgerPart, PoolPart, CheckpointPart, Apart, Evolves,
           BlockHash, Extends, InsertingChain, OnlyPendingBetter, ParentsMissing, OrphansOk, TipImproves,
           OrphanIds, StoredOrInvalid, Path, Fates, KeptByMerit, Selection;
      ghost var t, r, o, ids := blocks, rejected, orphans, OrphanIds(c, orphans);
      if inserting == {} && tip.Some? {
        TipStored();
        SettledIsBest(blocks, tip.value);
      }
      var e := EntryFor(c, blocks[b.prevHash], b);
      ChildlessAtFirst(c, p, blocks, rejected, e);
      StoreBlock(e);
      InsertingChainGrows(t, r, e, blocks, inserting);
      NewOneUnderWay(c, orphans, t, blocks, tip, e, inserting);
      NotUnderWay(t, r, b.prevHash, inserting, h);
      ghost var t1 := blocks;
      PromoteOrphans(h, readings, inserting + {h});
      ghost var t2, r2, tip2 := blocks, rejected, tip;
      SettleTip(h, inserting);
      FatesSelecting(c, p, orphans, t2, r2, blocks, rejected, readings);
      FatesTrans(c, p, o, r, t2, r2, orphans, blocks, rejected, orphans, readings, {});
      if !booting && inserting == {} && old(tip).Some? && h !in o {
        ghost var best :| Selection(c, p, t1, r, old(tip), blocks, rejected, tip, best);
        SelectionKeeps(c, p, t, r, old(tip).value, b, blocks, rejected, tip, best);
      }
      TipImprovesTrans(old(tip), tip2, tip);
      EvolvesTrans(c, p, t1, r, t2, r2, blocks, rejected, ids, {}, ids);
      EvolvesTrans(c, p, t, r, t1, r, blocks, rejected, {h}, ids, {h} + ids);
      StoredFate(c, p, t, r, blocks, rejected, rejected, b, ids);
    }

    /** Inserts the orphans that waited for a parent just stored. Every nested promotion finds strictly
        fewer orphans buffered than the one around it, even when the parent is rejected half way
        through and the remaining ones are buffered again. */
    method PromoteOrphans(parent: Hash, readings: set<i64>, ghost inserting: set<Hash>)
      requires Busy(inserting) && ParentsMissing(orphans, blocks, {parent}) && readings != {}
      requires Childless(blocks, parent)
      requires parent in inserting && InsertingChain(blocks, rejected, parent, inserting)
      modifies this
      ensures Busy(inserting) && ParentsMissing(orphans, blocks, {}) && booting == old(booting) && seenTx == old(seenTx)
      ensures pending == old(pending) || fresh(pending)
      ensures InsertingChain(blocks, rejected, parent, inserting)
      ensures Evolves(c, p, old(blocks), old(rejected), blocks, rejected, OrphanIds(c, old(orphans)))
      ensures OrphanIds(c, orphans) <= OrphanIds(c, old(orphans)) && OrphanCount(orphans) <= OrphanCount(old(orphans))
      ensures parent !in old(orphans) ==> blocks == old(blocks) && rejected == old(rejected) && tip == old(tip)
      ensures Fates(c, p, old(orphans), old(rejected), blocks, rejected, orphans, readings)
      ensures booting ==> rejected == old(rejected)
      ensures TipImproves(old(tip), tip)
      decreases OrphanCount(orphans), 0
    {
      hide TreeInv, IdealHashes, SoundParams, Linked, LedgerPart, PoolPart, CheckpointPart, Apart, Evolves,
           BlockHash, InsertingChain, OnlyPendingBetter, OrphansOk, TipImproves, OrphanIds, StoredOrInvalid,
           Verdict, AddedOrphan, Path, Fates, Fate, KeptByMerit, PathOrNothing, ParentsMissing, Untouched,
           Childless;
      ghost var t, r, o, ids, count := blocks, rejected, orphans, OrphanIds(c, orphans), OrphanCount(orphans);
      EvolvesNothing(c, p, blocks, rejected, ids);
      TipImprovesSelf(tip);
      FatesWaiting(c, p, orphans, rejected, blocks, orphans, readings);
      NoParentWaits(orphans, blocks, parent);
      if parent !in orphans {
        return;
      }
      var list := orphans[parent];
      TakenOrphans(c, orphans, parent);
      FatesBegin(c, p, orphans, parent, rejected, blocks, readings);
      ListIdsApart(c, orphans, parent);
      ListUntouched(c, p, orphans, parent, blocks, rejected);
      FewOrphans(c, orphans);
      ParentTaken(orphans, blocks, parent);
      orphans := orphans - {parent};
      for i := 0 to |list|
        invariant Busy(inserting) && ParentsMissing(orphans, blocks, {})
                  && booting == old(booting) && seenTx == old(seenTx)
        invariant InsertingChain(blocks, rejected, parent, inserting)
        invariant Evolves(c, p, t, r, blocks, rejected, ids)
        invariant OrphanIds(c, orphans) <= ids && OrphanCount(orphans) <= count - |list| + i
        invariant TipImproves(old(tip), tip) && (pending == old(pending) || fresh(pending))
        invariant Fates(c, p, o[parent := list[..i]], r, blocks, rejected, orphans, readings)
        invariant Untouched(c, list, i, orphans, blocks, r, rejected) && (booting ==> rejected == r)
      {
        ghost var t1, r1, o1, ids1, tip1 := blocks, rejected, orphans, OrphanIds(c, orphans), tip;
        assert list[i] in list;
        var now: i64 :| now in readings;
        var err := InsertBlock(list[i], now, readings, inserting);
        PromotedOne(c, p, o, parent, list, i, now, readings, r, t1, r1, o1, blocks, rejected, orphans);
        StillUntouched(c, p, list, i, o1, t1, r, r1, orphans, blocks, rejected);
        EvolvesAgree(c, p, t, r, t1, r1, ids);
        InsertingChainKept(c, p, t1, r1, blocks, rejected, {BlockHash(c, list[i])} + ids1, parent, inserting);
        EvolvesTrans(c, p, t, r, t1, r1, blocks, rejected, ids, {BlockHash(c, list[i])} + ids1, ids);
        TipImprovesTrans(old(tip), tip1, tip);
      }
      assert list[..|list|] == list && o[parent := list] == o;
    }

    // ----- accepting transactions -----

    /** The ids seen after one more, wiped when there are too many. */
    function WithSeen(seen: set<Hash>, h: Hash): set<Hash> {
      if |seen + {h}| > SEEN_RESET_AT then {} else seen + {h}
    }

    method MarkSeen(h: Hash)
      modifies `seenTx
      ensures seenTx == WithSeen(old(seenTx), h)
    {
      seenTx := seenTx + {h};
      if |seenTx| > SEEN_RESET_AT {
        seenTx := {};
      }
    }

    /** Takes a transaction not seen before exactly when it verifies, applies after everything pending
        and the mempool is not full; then it goes to the end of the order and nothing else moves. */
    method AddTx(t: Tx) returns (err: Option<AddError>)
      requires Core()
      modifies `mempoolTx, `mempoolOrder, `pending, `pendingDirty, `seenTx, pending
      ensures Core() && (pending == old(pending) || fresh(pending))
      ensures c.txHash(t) in old(seenTx) ==> err.None? && mempoolTx == old(mempoolTx)
                                             && mempoolOrder == old(mempoolOrder)
      ensures c.txHash(t) !in old(seenTx) ==>
                (err.None? <==> |old(mempoolTx)| < MAX_MEMPOOL && Verify(c, t).None?
                                && Ledger.ApplyTx(old(AfterPool()), t).Ok?)
      ensures c.txHash(t) !in old(seenTx) && err.None? ==>
                c.txHash(t) !in old(mempoolTx) &&
                mempoolOrder == old(mempoolOrder) + [c.txHash(t)] && mempoolTx == old(mempoolTx)[c.txHash(t) := t]
      ensures err.Some? ==> mempoolTx == old(mempoolTx) && mempoolOrder == old(mempoolOrder)
      ensures seenTx == if err.None? && c.txHash(t) !in old(seenTx) then WithSeen(old(seenTx), c.txHash(t))
                        else old(seenTx)
      ensures err == Some(MempoolFull) <==>
                && c.txHash(t) !in old(seenTx) && |old(mempoolTx)| >= MAX_MEMPOOL
                && Verify(c, t).None? && Ledger.ApplyTx(old(Cached()), t).Ok?
      ensures c.txHash(t) in old(seenTx) ==> (Exact() <==> old(Exact()))
      ensures c.txHash(t) !in old(seenTx) && Same(old(Cached()), old(AfterPool())) ==>
                (Exact() <==> err != Some(MempoolFull))
    {
      hide Ledger.ApplyTx, Verify, PoolOf, ApplyAll, Same, Total, TreePart, LedgerPart, IdealHashes, SoundParams,
           PoolOk, WithSeen;
      var h := c.txHash(t);
      if h in seenTx {
        return None;
      }
      ghost var cached := Cached();
      var ps := PendingState();
      ghost var before, pool := ps.accounts, AfterPool();
      AddFacts(before, cached, pool, t);
      if |mempoolTx| < MAX_MEMPOOL {
        SameApplyTx(before, pool, t);
      }
      var refused := TryAdd(ps, t);
      AddOutcome(before, pool, ps.accounts, t);
      if refused.Some? {
        return Some(TxRefused(refused.value));
      }
      if |mempoolTx| >= MAX_MEMPOOL {
        return Some(MempoolFull);
      }
      SameTrans(ps.accounts, Ledger.ApplyTx(before, t).value, Ledger.ApplyTx(pool, t).value);
      Admit(h, t, ps);
      err := None;
    }

    /** Offers a new transaction that verifies and applies after everything pending, with a cache that is right:
        it is taken while there is room; past the cap it is refused and the cache is spoilt. */
    method Offer(t: Tx) returns (err: Option<AddError>)
      requires Valid() && c.txHash(t) !in seenTx && Verify(c, t).None?
      requires Ledger.ApplyTx(AfterPool(), t).Ok? && Same(Cached(), AfterPool())
      modifies `mempoolTx, `mempoolOrder, `pending, `pendingDirty, `seenTx, pending
      ensures Valid() && (pending == old(pending) || fresh(pending)) && state.accounts == old(state.accounts)
      ensures PoolOk(c, state.accounts, mempoolOrder, mempoolTx)
      ensures if |old(mempoolTx)| < MAX_MEMPOOL
              then && err.None? && Exact() && Same(Cached(), AfterPool())
                   && seenTx == WithSeen(old(seenTx), c.txHash(t))
                   && mempoolOrder == old(mempoolOrder) + [c.txHash(t)]
                   && mempoolTx == old(mempoolTx)[c.txHash(t) := t]
              else && err == Some(MempoolFull) && !Exact()
                   && mempoolTx == old(mempoolTx) && mempoolOrder == old(mempoolOrder)
    {
      hide Core, OrphansOk, Linked, OnlyPendingBetter, ParentsMissing, PoolOf, ApplyAll, Same, PoolOk, WithSeen, Verify,
           Ledger.ApplyTx, Exact, Cached, AfterPool;
      OfferFacts(t);
      err := AddTx(t);
      ExactIsRight();
    }

    lemma ExactIsRight()
      requires Core()
      ensures PoolOk(c, state.accounts, mempoolOrder, mempoolTx) && (Exact() ==> Same(Cached(), AfterPool()))
    {
      hide PoolOk, TreePart, LedgerPart, IdealHashes, SoundParams, PoolOf, ApplyAll, Same;
    }

    lemma PoolApplied()
      requires PoolOk(c, state.accounts, mempoolOrder, mempoolTx)
      ensures AfterPool() == ApplyAll(state.accounts, PoolOf(mempoolOrder, mempoolTx)).value
    {
    }

    /** Below the cap the cache is always right. */
    lemma CacheRight()
      requires Valid() && |mempoolTx| < MAX_MEMPOOL
      ensures PoolOk(c, state.accounts, mempoolOrder, mempoolTx) && Same(Cached(), AfterPool())
    {
      hide PoolOk, TreePart, LedgerPart, IdealHashes, SoundParams, PoolOf, ApplyAll;
    }

    lemma SeenGrows(h: Hash)
      requires |seenTx| < SEEN_RESET_AT
      ensures WithSeen(seenTx, h) == seenTx + {h}
    {
    }

    /** A new transaction applies to the cache exactly if it applies after the pool, when these agree; and the
        accounts are nothing the mempool may write to. */
    lemma OfferFacts(t: Tx)
      requires Core()
      ensures pending == null || pending != state
      ensures Same(Cached(), AfterPool()) ==>
                (Ledger.ApplyTx(Cached(), t).Ok? <==> Ledger.ApplyTx(AfterPool(), t).Ok?)
    {
      hide Same, Ledger.ApplyTx, PoolOk, TreePart, LedgerPart, IdealHashes, SoundParams;
      if Same(Cached(), AfterPool()) { SameApplyTx(Cached(), AfterPool(), t); }
    }

    lemma AddFacts(before: Accounts, cached: Accounts, pool: Accounts, t: Tx)
      requires Same(before, cached)
      ensures Ledger.ApplyTx(before, t).Ok? <==> Ledger.ApplyTx(cached, t).Ok?
      ensures Same(cached, pool) ==> Same(before, pool)
    {
      hide Same, Ledger.ApplyTx;
      SameApplyTx(before, cached, t);
      if Same(cached, pool) { SameTrans(before, cached, pool); }
    }

    /** A refusal leaves the accounts as good as they were; a transaction that was applied moves a nonce on. */
    lemma AddOutcome(before: Accounts, pool: Accounts, after: Accounts, t: Tx)
      ensures Same(before, pool) && Same(after, before) ==> Same(after, pool)
      ensures Same(before, pool) && Ledger.ApplyTx(before, t).Ok? && Same(after, Ledger.ApplyTx(before, t).value) ==>
                !Same(after, pool)
    {
      if Same(before, pool) {
        if Same(after, before) { SameTrans(after, before, pool); }
        if Ledger.ApplyTx(before, t).Ok? { NonceMoved(before, t); }
      }
    }

    method Admit(h: Hash, t: Tx, ps: State)
      requires Environment() && PoolOk(c, state.accounts, mempoolOrder, mempoolTx)
      requires h == c.txHash(t) && Verify(c, t).None?
      requires |mempoolTx| < MAX_MEMPOOL && Ledger.ApplyTx(AfterPool(), t).Ok?
      requires Same(ps.accounts, Ledger.ApplyTx(AfterPool(), t).value) && Total(ps.accounts) < TWO64
      modifies `mempoolTx, `mempoolOrder, `pending, `pendingDirty, `seenTx
      ensures PoolPart() && Exact() && pending == ps && h !in old(mempoolTx)
      ensures mempoolOrder == old(mempoolOrder) + [h] && mempoolTx == old(mempoolTx)[h := t]
      ensures seenTx == WithSeen(old(seenTx), h)
    {
      hide Ledger.ApplyTx, Verify, PoolOf, ApplyAll, Same, Total, IdealHashes, SoundParams, PoolOk, WithSeen;
      IdealIds(c);
      PoolGrows(c, state.accounts, mempoolOrder, mempoolTx, t);
      MarkSeen(h);
      mempoolTx := mempoolTx[h := t];
      mempoolOrder := mempoolOrder + [h];
      pending, pendingDirty := ps, false;
    }

    /** Validates a transaction against the working accounts and applies it to them. */
    method TryAdd(ps: State, t: Tx) returns (err: Option<LedgerError>)
      requires Total(ps.accounts) < TWO64
      modifies ps
      ensures Total(ps.accounts) < TWO64
      ensures err.None? <==> Verify(c, t).None? && Ledger.ApplyTx(old(ps.accounts), t).Ok?
      ensures Same(ps.accounts, if err.None? then Ledger.ApplyTx(old(ps.accounts), t).value else old(ps.accounts))
    {
      hide Ledger.ApplyTx, Verify, Same, Total, Touch;
      ghost var before := ps.accounts;
      SameSelf(before);
      TouchSame(before, t.from);
      TouchKeepsTotal(before, t.from);
      if Ledger.ApplyTx(before, t).Ok? { ApplyNeeds(before, t); }
      err := ps.ValidateTx(c, t);
      if err.Some? {
        return;
      }
      ghost var touched := ps.accounts;
      SameApplyTx(touched, before, t);
      WorkStaysSmall(touched, t);
      TouchSame(touched, t.from);
      TouchKeepsTotal(touched, t.from);
      SameSelf(touched);
      err := ps.ApplyTx(t);
      if err.Some? {
        SameTrans(ps.accounts, touched, before);
      }
    }

    // ----- mining -----

    /** The block to mine on top of the active chain. */
    method BuildCandidate(miner: Address, now: i64) returns (candidate: Option<Block>)
      requires Core() && p.maxTxsPerBlock >= 1
      ensures Linked(blocks) && (candidate.None? <==> tip.None?)
      ensures candidate.Some? ==>
                && |Active(blocks, tip)| > 0
                && candidate.value == Candidate(c, p, Active(blocks, tip), state.accounts,
                                                PoolOf(mempoolOrder, mempoolTx), miner, now)
    {
      hide TreePart, PoolPart, Apart, CheckpointPart, IdealHashes, SoundParams, PoolOf, Greedy, Sort,
           NextDifficulty, AnchorOf, Path, Linked, MerkleRoot, RewardAt, FeeSum, Replay;
      Selected();
      if tip.None? {
        return None;
      }
      var parent := tip.value.block;
      var time := if now <= parent.time then WrapI64(parent.time + 1) else now;
      var txs := SelectTxs(p.maxTxsPerBlock - 1);
      var feeSum := AddFees(txs);
      var coinbase := Tx(COINBASE_ADDRESS, miner, WrapU64(RewardAt(p, WrapU64(parent.height + 1)) + feeSum), 0,
                         WrapU64(parent.height + 1), time, None, None);
      var blockTxs := [coinbase] + txs;
      var anchor := Anchor(tip.value);
      candidate := Some(Block(WrapU64(parent.height + 1), tip.value.hash, time, NextDifficulty(p, Some(parent), anchor),
                              miner, 0, MerkleRoot(c, blockTxs), 0, blockTxs));
    }

    lemma Selected()
      requires LedgerPart()
      ensures Linked(blocks)
      ensures tip.Some? ==>
                && tip.value.hash in blocks && blocks[tip.value.hash] == tip.value
                && Active(blocks, tip) == Path(blocks, tip.value.hash)
                && Active(blocks, tip)[|Active(blocks, tip)| - 1] == tip.value
      ensures tip.None? ==> Active(blocks, tip) == []
    {
    }

    /** The pending transactions in fee order, greedily applied and cut to size. */
    method SelectTxs(room: nat) returns (txs: seq<Tx>)
      requires Core()
      ensures txs == Chosen(state.accounts, PoolOf(mempoolOrder, mempoolTx), room)
    {
      hide TreePart, LedgerPart, Apart, IdealHashes, SoundParams, PoolOf, Greedy, Sort, Same, ApplyAll, Total, PoolOk;
      StateSmall();
      var all := ListPool();
      var sorted := Sort(RicherFirst(), all);
      var work := state.Clone();
      ghost var m := state.accounts;
      txs := [];
      SameSelf(m);
      GreedyNothing(m);
      GreedyOfNone(m, sorted);
      for i := 0 to |sorted|
        invariant txs == Greedy(m, sorted[..i]).kept && Same(work.accounts, Greedy(m, sorted[..i]).accounts)
        invariant Total(work.accounts) < TWO64
      {
        assert sorted[..i + 1] == sorted[..i] + [sorted[i]];
        var ok := TryPick(work, sorted[i], sorted[..i]);
        if ok {
          txs := txs + [sorted[i]];
        }
      }
      assert sorted[..|sorted|] == sorted;
      if |txs| > room {
        txs := txs[..room];
      }
    }

    method ListPool() returns (all: seq<Tx>)
      ensures all == PoolOf(mempoolOrder, mempoolTx)
    {
      hide PoolOf;
      all := [];
      PoolOfPrefix(mempoolOrder, mempoolTx);
      for i := 0 to |mempoolOrder|
        invariant all == PoolOf(mempoolOrder[..i], mempoolTx)
      {
        PoolStep(mempoolOrder, mempoolTx, i);
        var h := mempoolOrder[i];
        if h in mempoolTx {
          all := all + [mempoolTx[h]];
        }
      }
    }

    method TryPick(work: State, t: Tx, ghost seen: seq<Tx>) returns (ok: bool)
      requires work != state && Total(work.accounts) < TWO64
      requires Same(work.accounts, Greedy(state.accounts, seen).accounts)
      modifies work
      ensures Total(work.accounts) < TWO64
      ensures Same(work.accounts, Greedy(state.accounts, seen + [t]).accounts)
      ensures Greedy(state.accounts, seen + [t]).kept == Greedy(state.accounts, seen).kept + if ok then [t] else []
    {
      hide Ledger.ApplyTx, Verify, Same, Touch, Greedy, Total;
      ghost var before := work.accounts;
      WorkStaysSmall(before, t);
      GreedyTakes(state.accounts, seen, before, t);
      var err := work.ApplyTx(t);
      ok := err.None?;
      if err.Some? {
        TouchKeepsTotal(before, t.from);
        RefusalSame(before, t, work.accounts);
        SameTrans(work.accounts, before, Greedy(state.accounts, seen).accounts);
      }
    }

    method AddFees(txs: seq<Tx>) returns (feeSum: u64)
      ensures feeSum == FeeSum(txs)
    {
      feeSum := 0;
      assert txs[..0] == [];
      for i := 0 to |txs|
        invariant feeSum == FeeSum(txs[..i])
      {
        assert txs[..i + 1][..i] == txs[..i];
        feeSum := WrapU64(feeSum + txs[i].fee);
      }
      assert txs[..|txs|] == txs;
    }

    /** What the node itself would have its miner submit just now. */
    ghost function OwnSolution(miner: Address, builtAt: i64, extra: u64, nonce: u64): Block
      requires Core() && Linked(blocks) && p.maxTxsPerBlock >= 1 && tip.Some?
      reads `blocks, `rejected, `tip, `state, `chainHeights, `checkpoints, `mempoolOrder, `mempoolTx, `pending,
            `pendingDirty,
            state, pending, checkpoints.Values
    {
      Selected();
      Solution(c, p, Active(blocks, tip), state.accounts, PoolOf(mempoolOrder, mempoolTx), miner, builtAt, extra, nonce)
    }

    ghost predicate GoodRound(miner: Address, builtAt: i64, extra: u64, nonce: u64, submittedAt: i64)
      requires Core() && Linked(blocks) && p.maxTxsPerBlock >= 1 && tip.Some?
      reads `blocks, `rejected, `tip, `state, `chainHeights, `checkpoints, `mempoolOrder, `mempoolTx, `pending,
            `pendingDirty,
            state, pending, checkpoints.Values
    {
      Selected();
      GoodSolution(c, p, Active(blocks, tip), state.accounts, PoolOf(mempoolOrder, mempoolTx), miner, builtAt, extra,
                   nonce, submittedAt)
    }

    /** With no insertion under way, the tip is the unique best stored block. */
    lemma TipIsBest()
      requires Valid() && tip.Some?
      ensures Best(blocks, tip.value)
      ensures forall h :: h in blocks && h != tip.value.hash ==>
                blocks[h].work < tip.value.work || (blocks[h].work == tip.value.work && tip.value.hash < h)
    {
      hide TreePart, PoolPart, Apart, CheckpointPart, IdealHashes, SoundParams, OrphansOk;
      TipStored();
      SettledIsBest(blocks, tip.value);
      forall h | h in blocks && h != tip.value.hash
        ensures blocks[h].work < tip.value.work || (blocks[h].work == tip.value.work && tip.value.hash < h)
      {
        BestWrittenOut(blocks, tip.value, h);
      }
    }

    /** Among the blocks of greatest work the tip is the one whose hex string comes first. */
    lemma TipHexFirst(h: Hash, tipOctets: seq<nat>, octets: seq<nat>)
      requires Valid() && tip.Some? && h in blocks && h != tip.value.hash && blocks[h].work >= tip.value.work
      requires |tipOctets| == 32 && Targets.Digits(tipOctets, 256) && Targets.Value(tipOctets, 256) == tip.value.hash
      requires |octets| == 32 && Targets.Digits(octets, 256) && Targets.Value(octets, 256) == h
      ensures Targets.StringLess(Targets.Hex(tipOctets), Targets.Hex(octets))
    {
      hide TreePart, PoolPart, Apart, CheckpointPart, IdealHashes, SoundParams, OrphansOk, Targets.Value;
      TipIsBest();
      TipStored();
      BestHexFirst(blocks, tip.value, h, tipOctets, octets);
    }

    /** The block is a good solution of a candidate built on its parent, wherever that is stored, with the accounts
        there and any verified transactions. */
    ghost predicate Solves(b: Block, m: Accounts, pool: seq<Tx>, miner: Address, builtAt: i64, extra: u64, nonce: u64,
                           submittedAt: i64)
      reads `blocks
    {
      && p.halvingInterval > 0 && p.maxTxsPerBlock >= 1
      && Linked(blocks) && b.prevHash in blocks && Replay(c, p, Path(blocks, b.prevHash)) == Ok(m)
      && (forall t :: t in pool ==> Verify(c, t).None?)
      && GoodSolution(c, p, Path(blocks, b.prevHash), m, pool, miner, builtAt, extra, nonce, submittedAt)
      && b == Solution(c, p, Path(blocks, b.prevHash), m, pool, miner, builtAt, extra, nonce)
    }

    /** Takes a mined block. A good solution is refused only if its hash has been rejected; else it is in the tree
        and the tip is it or better. */
    method SubmitSolution(b: Block, submittedAt: i64, readings: set<i64>, ghost m: Accounts, ghost pool: seq<Tx>,
                          ghost miner: Address, ghost builtAt: i64, ghost extra: u64, ghost nonce: u64)
      returns (err: Option<InsertError>)
      requires Valid() && submittedAt in readings
      modifies this
      ensures Valid() && TipImproves(old(tip), tip) && (err.Some? && err.value != Orphan ==> unchanged(this))
      ensures pending == old(pending) || fresh(pending)
      ensures old(Solves(b, m, pool, miner, builtAt, extra, nonce, submittedAt)) ==>
                err == if BlockHash(c, b) in old(rejected) then Some(PreviouslyRejected) else None
      ensures old(Solves(b, m, pool, miner, builtAt, extra, nonce, submittedAt)) && err.None? ==>
                && BlockHash(c, b) in blocks
                && (BlockHash(c, b) !in old(blocks) ==> blocks[BlockHash(c, b)].block == b)
                && (old(tip).Some? ==>
                      tip.Some? && (tip.value.hash == BlockHash(c, b) || Better(tip.value, blocks[BlockHash(c, b)])))
    {
      hide TreePart, PoolPart, Apart, CheckpointPart, IdealHashes, SoundParams, PoolOf, Path, Linked, Evolves,
           BlockHash, OrphansOk, ParentsMissing, Verdict, StoredOrInvalid, InsertingChain, OrphanIds, AddedOrphan,
           OnlyPendingBetter, Better, LedgerPart, Candidate, Replay, EntryFor, GoodSolution, Fates, KeptByMerit,
           TipImproves, Verify, Solves;
      ghost var solves, t := Solves(b, m, pool, miner, builtAt, extra, nonce, submittedAt), blocks;
      if solves { CandidateFacts(b, m, pool, miner, builtAt, extra, nonce, submittedAt); }
      NobodyInserting(blocks, rejected, b.prevHash);
      err := InsertBlock(b, submittedAt, readings, {});
      if solves && err.None? {
        if BlockHash(c, b) !in t {
          MinedStays(c, p, t, blocks, rejected, b);
        }
        if old(tip).Some? {
          TipStays(old(tip), tip);
          TipIsBest();
        }
      }
    }

    lemma CandidateFacts(b: Block, m: Accounts, pool: seq<Tx>, miner: Address, builtAt: i64, extra: u64, nonce: u64,
                         submittedAt: i64)
      requires Environment() && TreePart() && Solves(b, m, pool, miner, builtAt, extra, nonce, submittedAt)
      ensures Linked(blocks) && b.prevHash in blocks
      ensures Verdict(c, p, blocks, rejected, PathOrNothing(blocks, b.prevHash), b, submittedAt)
           == if BlockHash(c, b) in rejected then Some(PreviouslyRejected) else None
      ensures Replay(c, p, Path(blocks, b.prevHash) + [EntryFor(c, blocks[b.prevHash], b)]).Ok?
    {
      hide IdealHashes, SoundParams, Path, Linked, BlockHash, Verdict, Replay, EntryFor, GoodSolution, Verify, Solution,
           TreeOk, Genesis, GenesisHash, Candidate;
      CandidateAccepted(c, p, blocks, rejected, b.prevHash, m, pool, miner, builtAt, extra, nonce, submittedAt);
    }

    /** One round of a miner: build a candidate on the tip, let anything happen while looking for a nonce, submit.
        Unless its hash was rejected meanwhile the block is in the tree, and the tip is it or better. */
    method MineRound(miner: Address, builtAt: i64, steps: seq<Step>, extra: u64, nonce: u64, submittedAt: i64)
      returns (err: Option<InsertError>, ghost mined: Block, ghost refused: set<Hash>)
      requires Valid() && tip.Some? && !booting && p.maxTxsPerBlock >= 1 && Linked(blocks)
      requires GoodRound(miner, builtAt, extra, nonce, submittedAt)
      modifies this, pending
      ensures Valid() && tip.Some? && mined == old(OwnSolution(miner, builtAt, extra, nonce))
      ensures old(rejected) <= refused
      ensures err == if BlockHash(c, mined) in refused then Some(PreviouslyRejected) else None
      ensures if err.None? then BlockHash(c, mined) in blocks else rejected == refused
      ensures err.None? ==> tip.value.hash == BlockHash(c, mined) || Better(tip.value, blocks[BlockHash(c, mined)])
    {
      hide TreePart, PoolPart, Apart, CheckpointPart, IdealHashes, SoundParams, PoolOf, Path, Linked, Evolves,
           BlockHash, OrphansOk, ParentsMissing, OnlyPendingBetter, Better, Candidate, Replay, GoodSolution, Verify,
           TipImproves;
      var candidate := BuildCandidate(miner, builtAt);
      mined := OwnSolution(miner, builtAt, extra, nonce);
      ghost var t, at, m, pool := blocks, tip.value.hash, state.accounts, PoolOf(mempoolOrder, mempoolTx);
      BuiltOnTip(miner, builtAt, extra, nonce);
      Run(steps);
      refused := rejected;
      ReplaySurvives(c, p, t, blocks, at);
      assert Solves(mined, m, pool, miner, builtAt, extra, nonce, submittedAt);
      var later: set<i64> := *;
      err := SubmitSolution(candidate.value.(extraNonce := extra, nonce := nonce), submittedAt, {submittedAt} + later,
                            m, pool, miner, builtAt, extra, nonce);
    }

    lemma BuiltOnTip(miner: Address, builtAt: i64, extra: u64, nonce: u64)
      requires Core() && tip.Some? && p.maxTxsPerBlock >= 1 && Linked(blocks)
      ensures tip.value.hash in blocks && Active(blocks, tip) == Path(blocks, tip.value.hash)
      ensures Replay(c, p, Path(blocks, tip.value.hash)) == Ok(state.accounts)
      ensures OwnSolution(miner, builtAt, extra, nonce).prevHash == tip.value.hash
      ensures forall t :: t in PoolOf(mempoolOrder, mempoolTx) ==> Verify(c, t).None?
    {
      hide TreePart, CheckpointPart, IdealHashes, SoundParams, PoolOf, Path, Replay, Linked, Verify, Chosen, MerkleRoot,
           NextDifficulty, AnchorOf, RewardAt, FeeSum, Same, Total;
      Selected();
      TipReplay(c, p, blocks, tip, state.accounts, chainHeights);
      PoolVerified(c, state.accounts, mempoolOrder, mempoolTx);
    }

    // ----- blocks of one hash -----

    /** A block that follows the rules, whose time the clock allows, that would beat the tip and of which the node
        knows nothing. Whether its state is valid is left open. */
    ghost predicate Promising(b: Block, now: i64)
      reads `blocks, `rejected, `tip, `orphans
    {
      && p.halvingInterval > 0 && tip.Some? && Linked(blocks) && b.prevHash in blocks
      && FollowsRules(c, p, Path(blocks, b.prevHash), b) && ClockAllows(p, b, now)
      && Better(EntryFor(c, blocks[b.prevHash], b), tip.value)
      && var h := BlockHash(c, b); h !in blocks && h !in rejected && h !in orphans
    }

    ghost predicate HasValidState(b: Block)
      requires p.halvingInterval > 0 && Linked(blocks) && b.prevHash in blocks
      reads `blocks
    {
      Replay(c, p, Path(blocks, b.prevHash) + [EntryFor(c, blocks[b.prevHash], b)]).Ok?
    }

    /** A promising block is taken without an error, and afterwards it is in the tree or rejected by its hash,
        just as its state is valid or not. */
    method TakePromising(b: Block, now: i64) returns (err: Option<InsertError>)
      requires Valid() && !booting && Promising(b, now)
      modifies this
      ensures Valid() && !booting && (pending == old(pending) || fresh(pending)) && err.None?
      ensures BlockHash(c, b) in blocks <==> old(HasValidState(b))
      ensures BlockHash(c, b) in rejected <==> !old(HasValidState(b))
    {
      hide TreePart, LedgerPart, PoolPart, Apart, CheckpointPart, Environment, BlockHash, FollowsRules, ClockAllows,
           Replay, Path, Linked, OrphansOk, ParentsMissing, OnlyPendingBetter, InsertingChain, Evolves, Better, Fates,
           StoredOrInvalid, AddedOrphan, OrphanIds, TipImproves, Verdict, KeptByMerit, PathOrNothing;
      GoodBlockVerdict(c, p, blocks, rejected, b, now);
      NobodyInserting(blocks, rejected, b.prevHash);
      ghost var t, r, best := blocks, rejected, tip.value;
      ghost var extra := {BlockHash(c, b)} + OrphanIds(c, orphans);
      err := InsertBlock(b, now, {now}, {});
      KeptOrRejected(c, p, t, r, best, b, blocks, rejected, extra);
    }

    /** Handed a promising valid block's twin first, the node takes and rejects that, and then refuses the block. */
    method TwinFirst(b: Block, now: i64, later: i64) returns (first: Option<InsertError>, second: Option<InsertError>)
      requires Valid() && !booting && IdsRespect(c) && Promising(b, now) && HasValidState(b)
      modifies this
      ensures Valid() && first.None? && second == Some(PreviouslyRejected)
      ensures BlockHash(c, b) in rejected && BlockHash(c, b) !in blocks
    {
      hide Core, Promising, HasValidState, BlockHash, Linked, OrphansOk, ParentsMissing, OnlyPendingBetter,
           InsertingChain, Evolves, IdsRespect, Fates, StoredOrInvalid, AddedOrphan, OrphanIds, TipImproves, Verdict,
           KeptByMerit, KeyedTwin, PathOrNothing;
      TwinPromising(b, now);
      first := TakePromising(KeyedTwin(b), now);
      NobodyInserting(blocks, rejected, b.prevHash);
      RejectedVerdict(c, p, blocks, rejected, PathOrNothing(blocks, b.prevHash), b, later);
      second := InsertBlock(b, later, {later}, {});
    }

    lemma TwinPromising(b: Block, now: i64)
      requires Promising(b, now) && HasValidState(b) && IdsRespect(c)
      ensures |b.txs| > 0 && BlockHash(c, KeyedTwin(b)) == BlockHash(c, b) && KeyedTwin(b).prevHash == b.prevHash
      ensures Promising(KeyedTwin(b), now) && !HasValidState(KeyedTwin(b))
    {
      hide BlockHash, FollowsRules, Replay, Linked, IdsRespect, Verdict;
      RejectionNamesTwins(c, p, Path(blocks, b.prevHash), b, blocks, rejected, now);
    }

    // ----- booting and running -----

    ghost predicate Empty()
      reads this, state
    {
      && blocks == map[] && rejected == {} && tip.None? && booting && state.accounts == map[]
      && checkpoints == map[] && orphans == map[]
      && mempoolTx == map[] && mempoolOrder == [] && pending == null && seenTx == {}
    }

    /** The first insertion ever: only what carries the genesis hash of these parameters is accepted. */
    method InsertFirst(b: Block) returns (err: Option<InsertError>)
      requires Environment() && Empty()
      modifies this
      ensures err.None? <==> BlockHash(c, b) == GenesisHash(c, p)
      ensures err.None? ==> Valid() && booting && tip.None?
                            && blocks == FirstStored(c, b) && orphans == map[] && rejected == {}
      ensures pending == null
    {
      hide SoundParams, IdealHashes, Genesis, BlockHash, GenesisHash;
      var h := BlockHash(c, b);
      if h == GenesisHash(c, p) { GenesisHeader(c, p, b); }
      if b.height == 0 {
        if h != GenesisHash(c, p) {
          return Some(UnknownGenesis);
        }
        blocks := blocks[h := Entry(b, h, 0)];
        chainHeights := chainHeights[0 := h];
        FirstTree(c, p, b);
        FirstOrphans(c);
        FirstPool(c);
        return None;
      }
      AddOrphan(b);
      err := Some(Orphan);
    }

    /** Starts from the stored blocks, or from genesis when there are none; selects a tip once. Loading
        succeeds exactly if every stored block passes its checks on the blocks before it. */
    method Boot(disk: seq<Block>, clock: nat -> i64) returns (ok: bool, ghost loaded: Blocks, ghost best: Entry)
      requires Environment() && Empty()
      modifies this
      ensures var stored := if disk == [] then [Genesis(p)] else disk;
              && (ok <==> LoadAll(c, p, stored, clock).Some?)
              && (ok ==> LoadAll(c, p, stored, clock) == Some(loaded))
      ensures ok ==> Valid() && !booting && orphans == map[] && Linked(loaded) && Best(loaded, best)
      ensures ok ==> (tip.Some? <==> StateValid(c, p, loaded, best.hash))
      ensures ok ==> (tip.Some? ==> tip.value == best && blocks == loaded && rejected == {})
      ensures disk == [] ==> ok && tip == Some(Entry(Genesis(p), GenesisHash(c, p), 0))
      ensures pending == null || fresh(pending)
    {
      hide SoundParams, IdealHashes, Genesis, GenesisHash, BlockHash, TreePart, LedgerPart, PoolPart, Apart,
           Linked, Best, OrphansOk, ParentsMissing, OnlyPendingBetter, SwitchOutcome, FirstStored, Verdict,
           Evolves, InsertingChain, StateValid, AddedOrphan, StoredOrInvalid, OrphanIds, TipImproves, LoadAll,
           Fates, KeptByMerit;
      loaded, best := map[], Entry(Genesis(p), 0, 0);
      var first := if |disk| == 0 then Genesis(p) else disk[0];
      ghost var stored := if disk == [] then [Genesis(p)] else disk;
      GenesisIsOwn(c, p);
      LoadFirst(c, p, stored, clock);
      var err := InsertFirst(first);
      if err.Some? {
        LoadStops(c, p, stored, clock, 1);
        return false, loaded, best;
      }
      var i := 1;
      while i < |disk|
        invariant 1 <= i && Valid() && booting && orphans == map[]
        invariant disk == [] ==> blocks == FirstStored(c, Genesis(p))
        invariant i <= |stored| && rejected == {} && LoadAll(c, p, stored[..i], clock) == Some(blocks)
        invariant pending == null || fresh(pending)
        decreases |disk| - i
      {
        ghost var t := blocks;
        NobodyInserting(blocks, rejected, disk[i].prevHash);
        err := InsertBlock(disk[i], clock(i), {clock(i)}, {});
        LoadNext(c, p, stored, clock, i, t);
        if err.Some? {
          LoadStops(c, p, stored, clock, i + 1);
          return false, loaded, best;
        }
        LoadedOne(c, p, t, disk[i], clock(i), blocks, rejected);
        StillNoOrphans(c, orphans);
        i := i + 1;
      }
      assert stored[..i] == stored;
      booting := false;
      loaded := blocks;
      ghost var r := rejected;
      best := SelectTip();
      Selected();
      BootOutcome(c, p, loaded, r, tip, blocks, rejected, best);
      NoneMissing(blocks);
      if disk == [] { GenesisBootOutcome(c, p, best); }
      ok := true;
    }

    /** What Valid means once a tip is chosen: the tip is the unique best stored block, its chain obeys every
        rule and holds no rejected block, the height index lists exactly that chain, the accounts are
        its replay from nothing, and the balances add up to exactly what the chain paid out. */
    lemma Settled()
      requires Valid() && tip.Some?
      ensures Linked(blocks) && tip.value.hash in blocks
      ensures Best(blocks, tip.value)
      ensures forall h :: h in blocks && h != tip.value.hash ==>
                blocks[h].work < tip.value.work || (blocks[h].work == tip.value.work && tip.value.hash < h)
      ensures ChainOk(c, p, Path(blocks, tip.value.hash)) && tip.value.work == WorkOf(Path(blocks, tip.value.hash))
      ensures chainHeights == HeightIndex(Path(blocks, tip.value.hash))
      ensures forall e :: e in Path(blocks, tip.value.hash) ==> e.hash in blocks && e.hash !in rejected
      ensures Replay(c, p, Path(blocks, tip.value.hash)) == Ok(state.accounts)
      ensures Total(state.accounts) == Supply(p, tip.value.block.height) < TWO64
    {
      hide PoolPart, Apart, CheckpointPart, IdealHashes, OrphansOk, Path, Replay, Best, Linked, ChainOk, Total, Supply,
           OnlyPendingBetter, ParentsMissing, SoundParams, HeightsFromGenesis, Genesis, GenesisHash, EntryOk;
      TipIsBest();
      TipStored();
      TreeGivesChain(c, p, blocks, rejected, tip.value.hash);
      WorkIsSum(c, p, Path(blocks, tip.value.hash));
      ReplayConserves(c, p, Path(blocks, tip.value.hash));
      PathStoredHere(blocks, tip.value.hash);
    }

    /** The height index holds the active chain's block at every height up to the tip's and nothing else. */
    lemma IndexWrittenOut(i: u64)
      requires Valid() && tip.Some?
      ensures Linked(blocks) && tip.value.hash in blocks
      ensures i in chainHeights <==> i <= tip.value.block.height
      ensures i in chainHeights ==> chainHeights[i] == Path(blocks, tip.value.hash)[i].hash
    {
      hide PoolPart, Apart, CheckpointPart, IdealHashes, OrphansOk, Replay, Linked, SoundParams, TreePart, Path;
      TipStored();
    }

    /** What an account holds is what the active chain paid it for mining and what it received, less what it
        spent. */
    lemma BalanceWrittenOut(a: Address)
      requires Valid() && tip.Some?
      ensures p.halvingInterval > 0 && Linked(blocks) && tip.value.hash in blocks
      ensures var chain := Path(blocks, tip.value.hash);
              Get(state.accounts, a).balance
              == Minted(p, a, chain) + Received(a, ChainTxs(chain)) - Spent(a, ChainTxs(chain))
    {
      hide PoolPart, Apart, CheckpointPart, IdealHashes, OrphansOk, Replay, Linked, TreePart, Path, Get, Minted,
           Received, Spent, ChainTxs;
      TipStored();
      PathHeights(blocks, tip.value.hash);
      ChainBalances(c, p, Path(blocks, tip.value.hash), a);
    }

    /** Everything pending was signed: it carries a key of 32 octets that hashes to its sender, and a signature
        under that key that is good for the rest of it. */
    lemma PendingSigned(h: Hash)
      requires Valid() && h in mempoolTx
      ensures var t := mempoolTx[h];
              && t.from != "" && t.pubKey.Some? && |t.pubKey.value| == 32 && c.addressOf(t.pubKey.value) == t.from
              && t.sig.Some? && c.signatureValid(t.pubKey.value, t.(sig := None), t.sig.value)
    {
      hide TreePart, LedgerPart, Apart, IdealHashes, OrphansOk, Linked, SoundParams, Verify, ApplyTx;
      PoolNoCoinbase(state.accounts, mempoolOrder, mempoolTx, h);
      VerifyMeaning(c, mempoolTx[h]);
    }

    /** So was every transaction in the active chain's blocks above genesis but their coinbases. */
    lemma ConfirmedSigned(i: nat, j: nat)
      requires Valid() && tip.Some?
      ensures Linked(blocks) && tip.value.hash in blocks
      ensures var chain := Path(blocks, tip.value.hash);
              0 < i < |chain| && 0 < j < |chain[i].block.txs| ==>
                var t := chain[i].block.txs[j];
                && t.from != "" && t.pubKey.Some? && |t.pubKey.value| == 32 && c.addressOf(t.pubKey.value) == t.from
                && t.sig.Some? && c.signatureValid(t.pubKey.value, t.(sig := None), t.sig.value)
    {
      hide PoolPart, Apart, CheckpointPart, IdealHashes, OrphansOk, Replay, Linked, TreePart, Path, SoundParams;
      TipStored();
      PathHeights(blocks, tip.value.hash);
      var chain := Path(blocks, tip.value.hash);
      if 0 < i < |chain| && 0 < j < |chain[i].block.txs| {
        ChainSigned(c, p, chain, i, j);
      }
    }

    /** Two settled nodes that store the same state-valid blocks agree on the tip, the chain, the height index and
        every account, whatever the order the blocks came in and whatever invalid ones either still stores. */
    lemma Converges(other: Node)
      requires Valid() && tip.Some? && other.Valid() && other.tip.Some? && other.c == c && other.p == p
      requires p.halvingInterval > 0 && SameValid(c, p, blocks, other.blocks)
      ensures tip == other.tip && tip.value.hash in blocks && tip.value.hash in other.blocks
      ensures Path(blocks, tip.value.hash) == Path(other.blocks, tip.value.hash)
      ensures chainHeights == other.chainHeights && state.accounts == other.state.accounts
    {
      hide PoolPart, Apart, CheckpointPart, IdealHashes, OrphansOk, Path, Replay, Best, Linked, ChainOk, Total, Supply,
           OnlyPendingBetter, ParentsMissing, SoundParams, HeightsFromGenesis, Genesis, GenesisHash, EntryOk, TreeOk,
           SameValid;
      Settled();
      other.Settled();
      SameBest(c, p, blocks, other.blocks, tip.value, other.tip.value);
    }

    /** Whatever is pending has not been confirmed on the active chain, unless its sender has been through
        all 2^64 nonces. */
    lemma NothingPendingConfirmed(h: Hash)
      requires Valid() && tip.Some? && h in mempoolTx
      requires Linked(blocks) && tip.value.hash in blocks
      ensures var chain, sender := Path(blocks, tip.value.hash), mempoolTx[h].from;
              h in ConfirmedAbove(c, chain) ==>
                Count(sender, ChainTxs(chain)) + Count(sender, PoolOf(mempoolOrder, mempoolTx)) > TWO64
    {
      hide Apart, CheckpointPart, IdealHashes, OrphansOk, Path, Replay, ChainTxs, ConfirmedAbove, Count, Linked,
           SoundParams, PoolOk, OnlyPendingBetter, ParentsMissing, WellFormedChain, Total, Same, ApplyAll, PoolOf,
           TreeInv;
      TipStored();
      IdealIds(c);
      TreeGivesWellFormed(c, p, blocks, rejected, tip.value.hash);
      PoolUnconfirmed(c, p, Path(blocks, tip.value.hash), mempoolOrder, mempoolTx, h);
    }

    /** Any sequence of locked entry points, from any settled state with a tip. */
    method Run(steps: seq<Step>)
      requires Valid() && tip.Some? && !booting
      modifies this, pending
      ensures Valid() && tip.Some? && !booting
      ensures tip == old(tip) || tip.value.work > old(tip).value.work
              || (tip.value.work == old(tip).value.work && tip.value.hash < old(tip).value.hash)
      ensures TipImproves(old(tip), tip) && old(rejected) <= rejected && Survives(c, p, old(blocks), blocks)
      ensures pending == old(pending) || fresh(pending)
    {
      hide Core, OrphansOk, Linked, OnlyPendingBetter, ParentsMissing, TipImproves, Verdict, Evolves,
           InsertingChain, AddedOrphan, OrphanIds, StoredOrInvalid, BlockHash, Survives;
      TipImprovesSelf(tip);
      EnvironmentHolds();
      SurvivesSelf(c, p, blocks);
      for i := 0 to |steps|
        invariant Valid() && tip.Some? && !booting
        invariant TipImproves(old(tip), tip) && old(rejected) <= rejected && Survives(c, p, old(blocks), blocks)
        invariant pending == old(pending) || fresh(pending)
      {
        ghost var before, t := tip, blocks;
        RunStep(steps[i]);
        TipImprovesTrans(old(tip), before, tip);
        SurvivesTrans(c, p, old(blocks), t, blocks);
      }
      ImprovesWrittenOut(old(tip), tip);
    }

    method RunStep(step: Step)
      requires Valid() && tip.Some? && !booting
      modifies this, pending
      ensures Valid() && tip.Some? && !booting
      ensures p.halvingInterval > 0
      ensures TipImproves(old(tip), tip) && old(rejected) <= rejected && Survives(c, p, old(blocks), blocks)
      ensures pending == old(pending) || fresh(pending)
    {
      hide Survives;
      hide Core, OrphansOk, Linked, OnlyPendingBetter, ParentsMissing, Verdict, InsertingChain, AddedOrphan,
           OrphanIds, StoredOrInvalid, BlockHash, StateValid, Better, Fates, KeptByMerit, Evolves, TipImproves, PoolOf,
           ApplyAll, Same, PoolOk, WithSeen, Verify, Ledger.ApplyTx, Exact, Cached, AfterPool;
      TipImprovesSelf(tip);
      EnvironmentHolds();
      SurvivesSelf(c, p, blocks);
      match step
      case NewBlock(b, now, later) =>
        NobodyInserting(blocks, rejected, b.prevHash);
        ghost var ids := {BlockHash(c, b)} + OrphanIds(c, orphans);
        var err := InsertBlock(b, now, {now} + later, {});
        EvolvesAgree(c, p, old(blocks), old(rejected), blocks, rejected, ids);
        EvolvesSurvives(c, p, old(blocks), old(rejected), blocks, rejected, ids);
        TipStays(old(tip), tip);
      case NewTx(t) =>
        var err := AddTx(t);
      case Spend =>
        var work := PendingState();
    }

    /** A node started on an empty disk and put through any steps: its tip is the best block it stores, its
        chain obeys the rules, and its accounts are that chain replayed, adding up to what it paid out. */
    static method RunFromGenesis(c: Crypto, p: Params, steps: seq<Step>, clock: nat -> i64) returns (n: Node)
      requires p.halvingInterval > 0 && SoundParams(p) && IdealHashes(c)
      ensures fresh(n) && n.c == c && n.p == p && n.Valid() && n.tip.Some? && Linked(n.blocks)
      ensures n.tip.value.hash in n.blocks && Best(n.blocks, n.tip.value)
      ensures forall h :: h in n.blocks && h != n.tip.value.hash ==>
                n.blocks[h].work < n.tip.value.work
                || (n.blocks[h].work == n.tip.value.work && n.tip.value.hash < h)
      ensures var chain := Path(n.blocks, n.tip.value.hash);
              && ChainOk(c, p, chain) && n.tip.value.work == WorkOf(chain)
              && n.chainHeights == HeightIndex(chain)
              && Replay(c, p, chain) == Ok(n.state.accounts)
              && Total(n.state.accounts) == Supply(p, n.tip.value.block.height) < TWO64
              && forall e :: e in chain ==> e.hash !in n.rejected
    {
      hide Linked, SoundParams, IdealHashes, Best, Path, ChainOk, WorkOf, HeightIndex, Replay, Total, Supply;
      n := new Node(c, p);
      n.BootAndRun(steps, clock);
      n.Settled();
    }

    method BootAndRun(steps: seq<Step>, clock: nat -> i64)
      requires Environment() && Empty()
      modifies this
      ensures Valid() && tip.Some? && !booting
    {
      hide Core, OrphansOk, Linked, OnlyPendingBetter, ParentsMissing, SoundParams, IdealHashes, StateValid, Best,
           GenesisHash, Genesis, BlockHash, TipImproves;
      var ok;
      ghost var loaded, best;
      ok, loaded, best := Boot([], clock);
      Run(steps);
    }

    /** The chain a settled node serves is one the sync promise covers. */
    lemma OwnChainServable()
      requires Valid() && tip.Some?
      ensures Linked(blocks) && ServableChain(c, p, Active(blocks, tip))
      ensures Holds(blocks, Active(blocks, tip), |Active(blocks, tip)|)
    {
      hide PoolPart, Apart, CheckpointPart, IdealHashes, OrphansOk, Path, Replay, Linked, ChainOk, SoundParams,
           OnlyPendingBetter, ParentsMissing, HeightsFromGenesis, Genesis, GenesisHash, EntryOk, TreeInv;
      Selected();
      TipStored();
      TreeGivesChain(c, p, blocks, rejected, tip.value.hash);
      PathStoredHere(blocks, tip.value.hash);
    }

    // ----- syncing with a peer -----

    /** A block locator for the branch ending at e; without a branch, just genesis. */
    method Locator(e: Option<Entry>) returns (out: seq<Hash>)
      requires Environment() && TreePart() && Linked(blocks)
      requires e.Some? ==> e.value.hash in blocks && blocks[e.value.hash] == e.value
      ensures out == if e.None? then [GenesisHash(c, p)] else LocatorOf(Path(blocks, e.value.hash))
    {
      hide TreeInv, IdealHashes, SoundParams, Linked, Ranked, Rooted, Path, Lookup, LocatorFrom, GenesisHash,
           FromEnd, WrapU64;
      if e.None? {
        return [GenesisHash(c, p)];
      }
      TreeFacts(c, p, blocks, rejected);
      ghost var full := Path(blocks, e.value.hash);
      ghost var top := |full| - 1;
      out := [];
      var step: u64 := 1;
      var cur := e;
      ghost var h: nat := top;
      FromEndIs(full, 0);
      while cur.Some?
        invariant h <= top && cur == Some(full[h]) && step >= 1
        invariant if |out| <= DENSE then step == 1 && top - h == |out| else h > 0 ==> top - h >= 2 * step
        invariant LocatorOf(full) == out + LocatorFrom(full, h, |out|, step)
        decreases h
      {
        PathShape(blocks, e.value.hash, h);
        LocatorUnfold(full, h, |out|, step);
        out := out + [cur.value.hash];
        if cur.value.block.height == 0 {
          return;
        }
        step := Stride(|out|, step, top, h);
        cur := GoBack(cur.value, step, full, h);
        h := if h <= step then 0 else h - step;
      }
      out := out + [GenesisHash(c, p)];
    }

    /** How far back the next entry lies: the gaps double once the list is past its dense part. */
    method Stride(n: nat, step: u64, ghost top: nat, ghost h: nat) returns (wide: u64)
      requires 0 < h <= top < TWO64 && step >= 1 && n > 0
      requires if n - 1 <= DENSE then step == 1 && top - h == n - 1 else top - h >= 2 * step
      ensures wide >= 1 && wide == NextStep(n, step)
      ensures var next := if h <= wide then 0 else h - wide;
              if n <= DENSE then wide == 1 && top - next == n else next > 0 ==> top - next >= 2 * wide
    {
      LocatorStep(top, h, n, step);
      wide := step;
      if n > DENSE {
        wide := WrapU64(wide * 2);
      }
    }

    method GoBack(from: Entry, step: u64, ghost full: seq<Entry>, ghost h: nat) returns (cur: Option<Entry>)
      requires Environment() && TreePart() && Linked(blocks)
      requires |full| > 0 && full[|full| - 1].hash in blocks && full == Path(blocks, full[|full| - 1].hash)
      requires h < |full| && from == full[h]
      ensures cur == Some(full[if h <= step then 0 else h - step])
    {
      hide TreeInv, IdealHashes, SoundParams, Linked, Ranked, Rooted, Path, Lookup, FromEnd;
      TreeFacts(c, p, blocks, rejected);
      ghost var start, top := |full| - 1 - h, full[|full| - 1].hash;
      cur := Some(from);
      var i: nat := 0;
      FromEndIs(full, start);
      while i < step && cur.Some? && cur.value.block.height > 0
        invariant i <= h && i <= step && cur == Some(full[h - i])
      {
        PathShape(blocks, top, h - i);
        WalkStep(blocks, top, start + i);
        FromEndIs(full, start + i);
        FromEndIs(full, start + i + 1);
        cur := Lookup(blocks, cur.value.block.prevHash);
        i := i + 1;
      }
      PathShape(blocks, top, h - i);
    }

    /** One above the newest locator entry that sits on the active chain. */
    method StartFor(locator: seq<Hash>) returns (start: nat)
      requires Core() && tip.Some? && Linked(blocks)
      ensures start == StartAfter(Active(blocks, tip), locator)
    {
      hide TreePart, PoolPart, Apart, CheckpointPart, IdealHashes, SoundParams, Linked, Path, IndexOf, HeightIndex,
           Replay;
      Selected();
      ghost var chain := Active(blocks, tip);
      ActiveIndex(c, p, blocks, tip, state.accounts, chainHeights);
      assert locator[0..] == locator;
      for i := 0 to |locator|
        invariant StartAfter(chain, locator) == StartAfter(chain, locator[i..])
      {
        var h := locator[i];
        assert locator[i..][1..] == locator[i + 1..];
        IndexedHash(blocks, tip.value.hash, chainHeights, h);
        if h !in blocks || blocks[h].block.height !in chainHeights || chainHeights[blocks[h].block.height] != h {
          continue;
        }
        return blocks[h].block.height + 1;
      }
      start := 1;
    }

    /** Blocks of the active chain after the newest locator entry on it, up to the batch limits. */
    method BlocksAfterLocator(locator: seq<Hash>, count: nat) returns (out: seq<Block>)
      requires Core()
      ensures Linked(blocks) && out == if tip.None? then [] else Answer(Active(blocks, tip), locator, count)
    {
      hide TreePart, PoolPart, Apart, CheckpointPart, IdealHashes, SoundParams, Linked, Path, TipOk, StartAfter, Batch;
      Selected();
      if tip.None? {
        return [];
      }
      var start := StartFor(locator);
      out := CollectRun(start, count);
    }

    method CollectRun(start: nat, count: nat) returns (out: seq<Block>)
      requires Core() && tip.Some? && Linked(blocks)
      ensures out == Batch(Active(blocks, tip), start, count, 0)
    {
      hide TreePart, PoolPart, Apart, CheckpointPart, IdealHashes, SoundParams, Linked, Path, TipOk, Batch, Replay,
           HeightIndex;
      Selected();
      TipStored();
      ghost var chain := Active(blocks, tip);
      ActiveIndex(c, p, blocks, tip, state.accounts, chainHeights);
      out := [];
      var txs: nat := 0;
      var h := start;
      assert [] + Batch(chain, start, count, 0) == Batch(chain, start, count, 0);
      while h <= tip.value.block.height && |out| < count
        invariant start <= h && |out| == h - start && |out| <= count
        invariant Batch(chain, start, count, 0) == out + Batch(chain, h, count - |out|, txs)
        decreases count - |out|
      {
        if h !in chainHeights {
          break;
        }
        var hash := chainHeights[h];
        if hash !in blocks {
          break;
        }
        var b := blocks[hash].block;
        BatchUnfold(chain, h, count - |out|, txs, out);
        out := out + [b];
        txs := txs + |b.txs|;
        h := h + 1;
        if txs >= SYNC_TX_BUDGET {
          return;
        }
      }
      BatchEnd(chain, h, count - |out|, txs);
      assert out + [] == out;
    }

    /** Takes one block from a peer; reports whether it was new here, and for an orphan asks back with a
        locator for the tip. */
    method AcceptRemote(b: Block, now: i64, readings: set<i64>) returns (accepted: bool, request: Option<seq<Hash>>)
      requires Valid() && now in readings
      modifies this
      ensures Valid() && booting == old(booting) && (pending == old(pending) || fresh(pending)) && Linked(old(blocks))
      ensures var h := BlockHash(c, b);
              var verdict := Verdict(c, p, old(blocks), old(rejected), PathOrNothing(old(blocks), b.prevHash), b, now);
              && (accepted <==> h !in old(blocks) && h !in old(rejected) && verdict.None?)
              && (request.Some? <==> h !in old(blocks) && verdict == Some(Orphan))
      ensures request.Some? && old(tip).None? ==> request.value == [GenesisHash(c, p)]
      ensures request.Some? && old(tip).Some? ==>
                |Active(old(blocks), old(tip))| > 0 && request.value == LocatorOf(Active(old(blocks), old(tip)))
      ensures Fates(c, p, old(orphans), old(rejected), blocks, rejected, orphans, readings)
      ensures BlockHash(c, b) in old(blocks) || BlockHash(c, b) in old(rejected) ==> unchanged(this)
      ensures Evolves(c, p, old(blocks), old(rejected), blocks, rejected,
              {BlockHash(c, b)} + OrphanIds(c, old(orphans)))
      ensures accepted ==>
                && OrphanIds(c, orphans) <= OrphanIds(c, old(orphans))
                && b.prevHash in old(blocks) && StoredOrInvalid(c, p, old(blocks), blocks, rejected, b)
      ensures TipImproves(old(tip), tip)
    {
      hide Core, OrphansOk, Linked, OnlyPendingBetter, ParentsMissing, InsertingChain, AddedOrphan, CheckBlock,
           OrphanIds, StoredOrInvalid, BlockHash, StateValid, Evolves, TipImproves, PathOrNothing, Fates, KeptByMerit;
      CoreEvolves({BlockHash(c, b)} + OrphanIds(c, orphans));
      FatesWaiting(c, p, orphans, rejected, blocks, orphans, readings);
      TipImprovesSelf(tip);
      NobodyInserting(blocks, rejected, b.prevHash);
      var h := BlockHash(c, b);
      if h in blocks || h in rejected {
        return false, None;
      }
      var err := InsertBlock(b, now, readings, {});
      if err.None? {
        return true, None;
      }
      if err == Some(Orphan) {
        var locator := TipLocator();
        return false, Some(locator);
      }
      return false, None;
    }

    lemma CoreEvolves(extra: set<Hash>)
      requires Core()
      ensures p.halvingInterval > 0 && Evolves(c, p, blocks, rejected, blocks, rejected, extra)
    {
      hide TreeInv, LedgerPart, PoolPart, Apart, IdealHashes, SoundParams, Evolves;
      EvolvesNothing(c, p, blocks, rejected, extra);
    }

    method TipLocator() returns (locator: seq<Hash>)
      requires Core() && Linked(blocks)
      ensures locator == if tip.None? then [GenesisHash(c, p)] else LocatorOf(Active(blocks, tip))
      ensures tip.Some? ==> |Active(blocks, tip)| > 0
    {
      hide TreeInv, PoolPart, Apart, CheckpointPart, IdealHashes, SoundParams, Linked, Path, LocatorOf, Replay;
      Selected();
      locator := Locator(tip);
    }

    /** What a delivery must satisfy for the sync promise: a run of a servable chain of which exactly the
        first blocks are held, none marked, at clock readings that admit them. */
    ghost predicate Promised(d: Delivery, msg: seq<Block>, clock: nat -> i64)
      reads `blocks, `rejected, `orphans
    {
      d.RunOf? ==>
        && ServableChain(c, p, d.chain) && 0 < d.start <= d.held <= |d.chain|
        && d.start + |msg| <= |d.chain| && msg == BlocksOf(d.chain[d.start..d.start + |msg|])
        && Holds(blocks, d.chain, d.held) && Unmarked(c, rejected, orphans, d.chain)
        && forall k: nat, i | 0 <= i < |d.chain| :: ClockAllows(p, d.chain[i].block, clock(k))
    }

    /** Takes in a batch and, if any of it was new, asks for the next one from where this one ended. Of a
        run of a servable chain everything is held afterwards, and the next request is anchored at its last block. */
    method OnBlocks(msg: seq<Block>, clock: nat -> i64, ghost d: Delivery) returns (request: Option<seq<Hash>>)
      requires Valid() && Promised(d, msg, clock)
      modifies this, pending
      ensures Valid() && booting == old(booting) && (pending == old(pending) || fresh(pending))
              && TipImproves(old(tip), tip)
      ensures d.RunOf? && d.held < d.start + |msg| ==>
                && Holds(blocks, d.chain, d.start + |msg|) && Unmarked(c, rejected, orphans, d.chain)
                && request == Some(LocatorOf(d.chain[..d.start + |msg|]))
      ensures d.RunOf? && d.held >= d.start + |msg| ==>
                Holds(blocks, d.chain, d.held) && Unmarked(c, rejected, orphans, d.chain) && request.None?
    {
      hide Core, OrphansOk, Linked, OnlyPendingBetter, ParentsMissing, ServableChain, Unmarked, Holds, LocatorOf,
           OrphanIds, StoredOrInvalid, BlockHash, Evolves, TipImproves, Verdict, PathOrNothing;
      TipImprovesSelf(tip);
      var deepest: Hash := 0;
      var accepted := 0;
      for i := 0 to |msg|
        invariant Valid() && booting == old(booting) && (pending == old(pending) || fresh(pending))
        invariant TipImproves(old(tip), tip)
        invariant d.RunOf? ==>
                    Holds(blocks, d.chain, HeldAfter(d, i)) && Unmarked(c, rejected, orphans, d.chain)
        invariant d.RunOf? ==> (accepted > 0 <==> d.start + i > d.held)
        invariant d.RunOf? && accepted > 0 ==> deepest == d.chain[d.start + i - 1].hash
      {
        ghost var before := tip;
        var ok := TakeNext(msg[i], clock(i), d, i);
        TipImprovesTrans(old(tip), before, tip);
        if ok {
          accepted := accepted + 1;
          deepest := BlockHash(c, msg[i]);
        }
      }
      if accepted == 0 {
        return None;
      }
      request := AskFrom(deepest, d, |msg|);
    }

    /** One block of a batch. Of a promised run, exactly the blocks not held yet are new. */
    method TakeNext(b: Block, now: i64, ghost d: Delivery, ghost i: nat) returns (accepted: bool)
      requires Valid()
      requires d.RunOf? ==>
                 && ServableChain(c, p, d.chain) && 0 < d.start <= d.held && d.start + i < |d.chain|
                 && b == d.chain[d.start + i].block && ClockAllows(p, b, now)
                 && Holds(blocks, d.chain, HeldAfter(d, i)) && Unmarked(c, rejected, orphans, d.chain)
      modifies this
      ensures Valid() && booting == old(booting) && (pending == old(pending) || fresh(pending))
              && TipImproves(old(tip), tip)
      ensures accepted ==> BlockHash(c, b) !in old(blocks)
      ensures d.RunOf? ==>
                && Holds(blocks, d.chain, HeldAfter(d, i + 1)) && Unmarked(c, rejected, orphans, d.chain)
                && BlockHash(c, b) == d.chain[d.start + i].hash
                && (accepted <==> d.start + i >= d.held)
    {
      hide TreePart, LedgerPart, PoolPart, Apart, OrphansOk, Linked, OnlyPendingBetter, ParentsMissing,
           ServableChain, Unmarked, Holds, OrphanIds, StoredOrInvalid, BlockHash, Evolves, TipImproves, Verdict,
           PathOrNothing, EntryFor, Path, ClockAllows, IdealHashes, SoundParams;
      ghost var t, r, o := blocks, rejected, orphans;
      ghost var m := if d.RunOf? then d.start + i else 0;
      if d.RunOf? {
        HeldOrNot(c, p, t, r, o, d.chain, HeldAfter(d, i), m);
        if m >= d.held {
          NextAccepted(c, p, t, r, d.chain, m, now);
        }
      }
      var request;
      var later: set<i64> := *;
      accepted, request := AcceptRemote(b, now, {now} + later);
      if d.RunOf? && m >= d.held {
        HoldsNext(c, p, t, r, o, blocks, rejected, orphans, d.chain, m);
      }
    }

    /** The next request: from the end of the batch, or from the tip if that block is gone. */
    method AskFrom(deepest: Hash, ghost d: Delivery, ghost n: nat) returns (request: Option<seq<Hash>>)
      requires Core() && Linked(blocks)
      requires d.RunOf? ==>
                 && ServableChain(c, p, d.chain) && 0 < d.start + n <= |d.chain|
                 && Holds(blocks, d.chain, d.start + n) && deepest == d.chain[d.start + n - 1].hash
      ensures request.Some? && (d.RunOf? ==> request == Some(LocatorOf(d.chain[..d.start + n])))
    {
      hide TreeInv, PoolPart, Apart, CheckpointPart, IdealHashes, SoundParams, Linked, Path, LocatorOf, Replay,
           Holds, ChainOk, HeightsFromGenesis;
      Selected();
      if d.RunOf? {
        HeldPath(c, p, blocks, d.chain, d.start + n, d.start + n - 1);
      }
      StoredHash(c, p, blocks, rejected, deepest);
      var anchor := if deepest in blocks then Some(blocks[deepest]) else tip;
      var locator := Locator(anchor);
      request := Some(locator);
    }

    /** Catches up with a peer serving a fixed chain. Once one batch brings something new, every further
        round gets exactly the following run, until the whole chain is held and the tip is at least as good
        as its end; a first batch with nothing new changes nothing and ends it. */
    method SyncWith(chain: seq<Entry>, clock: (nat, nat) -> i64, ghost held: nat) returns (progressed: bool)
      requires Valid() && tip.Some? && ServableChain(c, p, chain) && 0 < held <= |chain|
      requires Holds(blocks, chain, held) && Unmarked(c, rejected, orphans, chain)
      requires forall j: nat, k: nat, i | 0 <= i < |chain| :: ClockAllows(p, chain[i].block, clock(j, k))
      modifies this, pending
      ensures Valid() && tip.Some? && Linked(old(blocks)) && |Active(old(blocks), old(tip))| > 0
      ensures var first := LocatorOf(Active(old(blocks), old(tip)));
              progressed <==> held < StartAfter(chain, first) + |Answer(chain, first, SYNC_BATCH)|
      ensures !progressed ==> Holds(blocks, chain, held)
      ensures progressed ==>
                && Holds(blocks, chain, |chain|)
                && (tip.value.hash == chain[|chain| - 1].hash || Better(tip.value, chain[|chain| - 1]))
    {
      hide Core, OrphansOk, Linked, OnlyPendingBetter, ParentsMissing, Unmarked, Holds, LocatorOf, ServableChain,
           Active, OrphanIds, BlockHash, TipImproves, Better;
      progressed := false;
      var round: nat := 0;
      ghost var now := held;
      EnvironmentHolds();
      var locator := TipLocator();
      FirstConnects(chain, held);
      ghost var start := StartAfter(chain, locator);
      ghost var first, begin := locator, start;
      TipImprovesSelf(tip);
      while true
        invariant Valid() && (pending == old(pending) || fresh(pending)) && TipImproves(old(tip), tip)
        invariant 0 < start <= now <= |chain| && Holds(blocks, chain, now) && Unmarked(c, rejected, orphans, chain)
        invariant start == StartAfter(chain, locator)
        invariant if progressed then start == now else now == held && locator == first && start == begin
        invariant progressed ==> held < begin + |Answer(chain, first, SYNC_BATCH)|
        decreases |chain| - now
      {
        ghost var before := tip;
        var next;
        next, start := SyncRound(chain, locator, k => clock(round, k), start, now);
        round := round + 1;
        TipImprovesTrans(old(tip), before, tip);
        if next.None? {
          break;
        }
        progressed, locator, now := true, next.value, start;
      }
      TipStays(old(tip), tip);
      if progressed {
        TipIsBest();
        LastHeld(blocks, chain, tip.value);
      }
    }

    /** One round: the peer answers the locator, the answer is taken in, the next locator is built. The
        part of the chain still missing strictly shrinks, or the exchange is over. */
    method SyncRound(chain: seq<Entry>, locator: seq<Hash>, clock: nat -> i64, ghost start: nat, ghost held: nat)
      returns (next: Option<seq<Hash>>, ghost end: nat)
      requires Valid() && ServableChain(c, p, chain) && 0 < start <= held <= |chain|
               && start == StartAfter(chain, locator)
      requires Holds(blocks, chain, held) && Unmarked(c, rejected, orphans, chain)
      requires forall k: nat, i | 0 <= i < |chain| :: ClockAllows(p, chain[i].block, clock(k))
      modifies this, pending
      ensures Valid() && (pending == old(pending) || fresh(pending)) && TipImproves(old(tip), tip)
      ensures Unmarked(c, rejected, orphans, chain)
      ensures next.Some? <==> held < start + |Answer(chain, locator, SYNC_BATCH)|
      ensures next.Some? ==> end == start + |Answer(chain, locator, SYNC_BATCH)|
      ensures next.None? ==> Holds(blocks, chain, held) && (start == held ==> held == |chain|)
      ensures next.Some? ==> held < end <= |chain| && Holds(blocks, chain, end) && StartAfter(chain, next.value) == end
    {
      hide Core, OrphansOk, Linked, OnlyPendingBetter, ParentsMissing, Unmarked, Holds, LocatorOf, ServableChain,
           OrphanIds, BlockHash, TipImproves, Better, Batch, StartAfter, BlocksOf, ClockAllows;
      EnvironmentHolds();
      TipImprovesSelf(tip);
      end := held;
      var answer := Answer(chain, locator, SYNC_BATCH);
      BatchIsRun(chain, start, SYNC_BATCH, 0);
      if answer == [] {
        return None, end;
      }
      next := OnBlocks(answer, clock, RunOf(chain, start, held));
      if next.Some? {
        end := start + |answer|;
        AnchorAnswered(c, p, chain, end);
      }
    }

    lemma EnvironmentHolds()
      requires Core()
      ensures p.halvingInterval > 0 && IdealHashes(c)
    {
    }

    /** The first answer starts no later than one above what is held. */
    lemma FirstConnects(chain: seq<Entry>, held: nat)
      requires Valid() && tip.Some? && ServableChain(c, p, chain) && 0 < held <= |chain| && Holds(blocks, chain, held)
      ensures |Active(blocks, tip)| > 0
      ensures 1 <= StartAfter(chain, LocatorOf(Active(blocks, tip))) <= held
    {
      hide TreeInv, PoolPart, Apart, CheckpointPart, IdealHashes, SoundParams, Linked, Path, LocatorOf, Replay,
           Holds, ChainOk, HeightsFromGenesis, OrphansOk, OnlyPendingBetter, ParentsMissing, HeightIndex,
           StartAfter, SharedLen, Answer;
      Selected();
      TipStored();
      var path := Active(blocks, tip);
      TreeGivesChain(c, p, blocks, rejected, tip.value.hash);
      PathStoredHere(blocks, tip.value.hash);
      AnswerConnects(c, p, path, chain, SYNC_BATCH);
      SharedIsHeld(blocks, path, chain, held);
    }
  }
}
