/** What the node keeps true of its tree, orphans and caches, stated on values so that each
    step's effect can be proved away from the heap. */
module NodeRules {
  import opened Basics
  import opened Chain
  import opened Ledger
  import opened Tree
  import opened Subtree
  import opened Conservation
  import opened Mempool
  import opened StableSort
  import opened Nonces

  const CHECKPOINT_INTERVAL: u64 := 100
  const MAX_ORPHANS := 100
  const MAX_MEMPOOL := 10000
  const SEEN_RESET_AT := 50000

  type Orphans = map<Hash, seq<Block>>

  /** Digests behave like names: a header hash identifies the header and is never the zero
      hash that genesis names as its parent, and a transaction id identifies the transaction. */
  ghost predicate IdealHashes(c: Crypto) {
    && (forall a, b :: BlockHash(c, a) == BlockHash(c, b) ==> a.(txs := []) == b.(txs := []))
    && (forall b :: BlockHash(c, b) != 0)
    && TxIdsDistinct(c)
  }

  // ----- the tree -----

  ghost predicate TreeInv(c: Crypto, p: Params, t: Blocks, r: set<Hash>) {
    && TreeOk(c, p, t)
    && GenesisHash(c, p) in t && t[GenesisHash(c, p)].block.(txs := []) == Genesis(p)
    && t.Keys !! r
  }

  /** Roots name the zero hash as parent, and nothing is stored under it. */
  ghost predicate Rooted(t: Blocks) {
    0 !in t && forall h :: h in t && t[h].block.height == 0 ==> t[h].block.prevHash == 0
  }

  lemma TreeIsRooted(c: Crypto, p: Params, t: Blocks)
    requires IdealHashes(c) && TreeOk(c, p, t)
    ensures Rooted(t) && Ranked(t)
  {
    LinkedIsRanked(t);
    hide BlockHash, Extends;
    forall h | h in t ensures h != 0 { assert EntryOk(c, p, t, h); }
    forall h | h in t && t[h].block.height == 0 ensures t[h].block.prevHash == 0 {
      assert EntryOk(c, p, t, h);
      assert BlockHash(c, t[h].block) == BlockHash(c, Genesis(p));
    }
  }

  /** From (t, r) to (t', r'): blocks kept keep their entry, nothing rejected comes back, only
      state-invalid blocks are lost and only to rejection, and all news is named in extra. */
  ghost predicate Evolves(c: Crypto, p: Params, t: Blocks, r: set<Hash>, u: Blocks, s: set<Hash>, extra: set<Hash>)
    requires p.halvingInterval > 0
  {
    && Linked(t) && Linked(u)
    && Agree(t, u)
    && r <= s && u.Keys !! s
    && (forall x :: x in t && x !in u ==> x in s && !StateValid(c, p, t, x))
    && u.Keys <= t.Keys + extra
    && s <= r + t.Keys + extra
  }

  lemma EvolvesNothing(c: Crypto, p: Params, t: Blocks, r: set<Hash>, extra: set<Hash>)
    requires p.halvingInterval > 0 && TreeInv(c, p, t, r)
    ensures Evolves(c, p, t, r, t, r, extra)
  {
  }

  lemma EvolvesTrans(c: Crypto, p: Params, t: Blocks, r: set<Hash>, u: Blocks, s: set<Hash>, v: Blocks, q: set<Hash>,
                     some: set<Hash>, more: set<Hash>, extra: set<Hash>)
    requires p.halvingInterval > 0
    requires Evolves(c, p, t, r, u, s, some) && Evolves(c, p, u, s, v, q, more)
    requires some <= extra && more <= extra
    ensures Evolves(c, p, t, r, v, q, extra)
  {
    hide StateValid, Linked;
    forall x | x in t && x !in v ensures x in q && !StateValid(c, p, t, x) {
      if x in u { SameValidity(c, p, t, u, x); }
    }
  }

  lemma SameValidity(c: Crypto, p: Params, t: Blocks, u: Blocks, x: Hash)
    requires p.halvingInterval > 0 && Linked(t) && Linked(u) && Agree(t, u) && x in t && x in u
    ensures Path(t, x) == Path(u, x)
    ensures StateValid(c, p, t, x) <==> StateValid(c, p, u, x)
  {
    PathStable(t, u, x);
  }

  /** A state-valid block is never lost, and its history stays the same. */
  lemma ValidSurvives(c: Crypto, p: Params, t: Blocks, r: set<Hash>, u: Blocks, s: set<Hash>, extra: set<Hash>, x: Hash)
    requires p.halvingInterval > 0 && Evolves(c, p, t, r, u, s, extra) && x in t && StateValid(c, p, t, x)
    ensures x in u && u[x] == t[x] && Path(u, x) == Path(t, x)
  {
    hide StateValid;
    SameValidity(c, p, t, u, x);
  }

  /** From tree t to tree u: every state-valid block is still there with its history. */
  ghost predicate Survives(c: Crypto, p: Params, t: Blocks, u: Blocks)
    requires p.halvingInterval > 0
  {
    && Linked(t) && Linked(u)
    && forall x :: x in t && StateValid(c, p, t, x) ==> x in u && u[x] == t[x] && Path(u, x) == Path(t, x)
  }

  lemma EvolvesSurvives(c: Crypto, p: Params, t: Blocks, r: set<Hash>, u: Blocks, s: set<Hash>, extra: set<Hash>)
    requires p.halvingInterval > 0 && Evolves(c, p, t, r, u, s, extra)
    ensures Survives(c, p, t, u)
  {
    hide StateValid, Path;
    forall x | x in t && StateValid(c, p, t, x) ensures x in u && u[x] == t[x] && Path(u, x) == Path(t, x) {
      ValidSurvives(c, p, t, r, u, s, extra, x);
    }
  }

  lemma SurvivesSelf(c: Crypto, p: Params, t: Blocks)
    requires p.halvingInterval > 0 && Linked(t)
    ensures Survives(c, p, t, t)
  {
  }

  lemma SurvivesTrans(c: Crypto, p: Params, t: Blocks, u: Blocks, v: Blocks)
    requires p.halvingInterval > 0 && Survives(c, p, t, u) && Survives(c, p, u, v)
    ensures Survives(c, p, t, v)
  {
    hide Path, Replay, Linked;
  }

  lemma ReplaySurvives(c: Crypto, p: Params, t: Blocks, u: Blocks, h: Hash)
    requires p.halvingInterval > 0 && Survives(c, p, t, u) && h in t && Replay(c, p, Path(t, h)).Ok?
    ensures h in u && Path(u, h) == Path(t, h)
  {
    hide Path, Replay, Linked;
  }

  /** Storing a rule-abiding block on a stored parent. */
  lemma InsertEvolves(c: Crypto, p: Params, t: Blocks, r: set<Hash>, e: Entry)
    requires p.halvingInterval > 0 && TreeInv(c, p, t, r) && e.hash !in t && e.hash !in r
    requires e.hash == BlockHash(c, e.block) && e.block.height > 0
    requires e.block.prevHash in t && Extends(c, p, Path(t, e.block.prevHash), e)
    ensures TreeInv(c, p, t[e.hash := e], r)
    ensures Evolves(c, p, t, r, t[e.hash := e], r, {e.hash})
    ensures Path(t[e.hash := e], e.hash) == Path(t, e.block.prevHash) + [e]
  {
    hide Extends, BlockHash, GenesisHash, Genesis;
    InsertKeepsTree(c, p, t, e);
  }

  /** Rejecting a state-invalid block with everything built on it loses only state-invalid blocks. */
  lemma RejectEvolves(c: Crypto, p: Params, t: Blocks, r: set<Hash>, x: Hash)
    requires p.halvingInterval > 0 && IdealHashes(c) && TreeInv(c, p, t, r) && Ranked(t)
    requires x in t && !StateValid(c, p, t, x)
    ensures TreeInv(c, p, t - Descendants(t, x), r + Descendants(t, x))
    ensures Evolves(c, p, t, r, t - Descendants(t, x), r + Descendants(t, x), {})
    ensures x in Descendants(t, x)
  {
    hide Extends, BlockHash, StateValid, IdealHashes, Genesis;
    var gone := Descendants(t, x);
    forall y | y in gone ensures !StateValid(c, p, t, y) {
      BelowIsOnPath(t, y, x);
      if StateValid(c, p, t, y) { AncestorsValid(c, p, t, y, x); }
    }
    forall h | h in t && t[h].block.height > 0 && t[h].block.prevHash in gone ensures h in gone {
      assert RankedAt(t, h);
    }
    RemoveKeepsTree(c, p, t, gone);
    GenesisValid(c, p, t, r);
  }

  /** Exactly the block and everything built on it is gone. */
  ghost predicate OnlyDescendantsLost(t: Blocks, u: Blocks, x: Hash) {
    Linked(t) && x in t && forall y :: y in t ==> (y in u <==> !OnPath(t, y, x))
  }

  lemma DescendantsLost(t: Blocks, x: Hash)
    requires Linked(t) && Ranked(t) && x in t
    ensures OnlyDescendantsLost(t, t - Descendants(t, x), x)
    ensures t.Keys - (t - Descendants(t, x)).Keys == Descendants(t, x)
  {
    forall y | y in t ensures y in t - Descendants(t, x) <==> !OnPath(t, y, x) {
      BelowIsOnPath(t, y, x);
    }
  }

  lemma GenesisValid(c: Crypto, p: Params, t: Blocks, r: set<Hash>)
    requires p.halvingInterval > 0 && TreeInv(c, p, t, r)
    ensures StateValid(c, p, t, GenesisHash(c, p))
  {
    var path := Path(t, GenesisHash(c, p));
    assert path[..|path| - 1] == [];
  }

  // ----- the rules a new block is checked against -----

  datatype InsertError =
    | PreviouslyRejected | UnknownGenesis | Orphan | Invalid(reason: BlockError) | WrongDifficulty | InvalidPoW

  /** The checks of a block whose parent is stored, in the order they are made. */
  function CheckBlock(c: Crypto, p: Params, path: seq<Entry>, b: Block, now: i64): (r: Option<InsertError>)
    requires |path| > 0
    ensures r.None? || r.value.Invalid? || r.value == WrongDifficulty || r.value == InvalidPoW
  {
    var parent := path[|path| - 1].block;
    var basic := ValidateBasic(c, p, b, Some(parent), now);
    if basic.Some? then Some(Invalid(basic.value))
    else if b.difficulty != NextDifficulty(p, Some(parent), AnchorOf(p, path)) then Some(WrongDifficulty)
    else if !MeetsTarget(c, b) then Some(InvalidPoW)
    else None
  }

  lemma CheckBlockMeaning(c: Crypto, p: Params, path: seq<Entry>, b: Block, now: i64)
    requires |path| > 0 && b.height != 0
    ensures CheckBlock(c, p, path, b, now).None? <==> FollowsRules(c, p, path, b) && ClockAllows(p, b, now)
  {
    hide ValidateBasic, WellFormed, ClockAllows, MeetsTarget, NextDifficulty, AnchorOf;
    ValidateBasicMeaning(c, p, b, path[|path| - 1].block, now);
  }

  function EntryFor(c: Crypto, parent: Entry, b: Block): Entry {
    Entry(b, BlockHash(c, b), parent.work + b.difficulty)
  }

  // ----- orphans -----

  ghost function OrphanCount(o: Orphans): nat {
    if o == map[] then 0
    else
      var q :| q in o;
      |o[q]| + OrphanCount(o - {q})
  }

  lemma {:induction false} OrphanCountWithout(o: Orphans, q: Hash)
    requires q in o
    ensures OrphanCount(o) == |o[q]| + OrphanCount(o - {q})
    decreases |o|
  {
    var r :| r in o && OrphanCount(o) == |o[r]| + OrphanCount(o - {r});
    if q == r {
    } else {
      OrphanCountWithout(o - {r}, q);
      OrphanCountWithout(o - {q}, r);
      assert (o - {r}) - {q} == (o - {q}) - {r};
    }
  }

  lemma OrphanCountWrite(o: Orphans, q: Hash, list: seq<Block>)
    ensures OrphanCount(o[q := list]) == OrphanCount(o) - (if q in o then |o[q]| else 0) + |list|
    ensures q in o ==> |o[q]| <= OrphanCount(o)
  {
    OrphanCountWithout(o[q := list], q);
    if q in o {
      OrphanCountWithout(o, q);
      assert o[q := list] - {q} == o - {q};
    } else {
      assert o[q := list] - {q} == o;
    }
  }

  ghost function OrphanIds(c: Crypto, o: Orphans): set<Hash> {
    set q, b | q in o && b in o[q] :: BlockHash(c, b)
  }

  /** Every list is filed under its blocks' common parent and no block is buffered twice. */
  ghost predicate OrphansFiled(c: Crypto, o: Orphans) {
    && (forall q :: q in o ==> |o[q]| > 0 && forall b :: b in o[q] ==> b.prevHash == q)
    && (forall q, i, r, j ::
          (q in o && r in o && 0 <= i < |o[q]| && 0 <= j < |o[r]|
           && BlockHash(c, o[q][i]) == BlockHash(c, o[r][j])) ==> q == r && i == j)
  }

  ghost predicate OrphansOk(c: Crypto, o: Orphans) {
    OrphansFiled(c, o) && OrphanCount(o) <= MAX_ORPHANS
  }

  /** No buffered block's parent is stored, except possibly the one just being inserted. */
  ghost predicate ParentsMissing(o: Orphans, t: Blocks, except: set<Hash>) {
    forall q :: q in o && q in t ==> q in except
  }

  ghost function AddedOrphan(c: Crypto, o: Orphans, b: Block): Orphans {
    if BlockHash(c, b) in OrphanIds(c, o) || OrphanCount(o) >= MAX_ORPHANS then o
    else o[b.prevHash := (if b.prevHash in o then o[b.prevHash] else []) + [b]]
  }

  lemma AddedOrphanOk(c: Crypto, o: Orphans, b: Block)
    requires OrphansOk(c, o)
    ensures OrphansOk(c, AddedOrphan(c, o, b))
    ensures OrphanIds(c, AddedOrphan(c, o, b)) <= OrphanIds(c, o) + {BlockHash(c, b)}
    ensures OrphanCount(AddedOrphan(c, o, b)) <= OrphanCount(o) + 1
    ensures AddedOrphan(c, o, b).Keys <= o.Keys + {b.prevHash}
  {
    hide BlockHash, OrphanCount, OrphansFiled, OrphanIds;
    if BlockHash(c, b) !in OrphanIds(c, o) && OrphanCount(o) < MAX_ORPHANS {
      var list := if b.prevHash in o then o[b.prevHash] else [];
      OrphanCountWrite(o, b.prevHash, list + [b]);
      FiledOneMore(c, o, b, list);
      IdsOneMore(c, o, b, list);
    }
  }

  lemma FiledOneMore(c: Crypto, o: Orphans, b: Block, list: seq<Block>)
    requires OrphansFiled(c, o) && BlockHash(c, b) !in OrphanIds(c, o)
    requires list == if b.prevHash in o then o[b.prevHash] else []
    ensures OrphansFiled(c, o[b.prevHash := list + [b]])
  {
    hide BlockHash;
    forall r, i | r in o && 0 <= i < |o[r]| ensures BlockHash(c, o[r][i]) != BlockHash(c, b) {
      assert BlockHash(c, o[r][i]) in OrphanIds(c, o);
    }
  }

  lemma IdsOneMore(c: Crypto, o: Orphans, b: Block, list: seq<Block>)
    requires list == if b.prevHash in o then o[b.prevHash] else []
    ensures OrphanIds(c, o[b.prevHash := list + [b]]) <= OrphanIds(c, o) + {BlockHash(c, b)}
  {
    hide BlockHash;
  }

  lemma TakenOrphans(c: Crypto, o: Orphans, q: Hash)
    requires OrphansOk(c, o) && q in o
    ensures OrphansOk(c, o - {q})
    ensures OrphanIds(c, o - {q}) <= OrphanIds(c, o)
    ensures OrphanCount(o) == |o[q]| + OrphanCount(o - {q}) && |o[q]| > 0
    ensures forall b :: b in o[q] ==> BlockHash(c, b) in OrphanIds(c, o) && b.prevHash == q
  {
    OrphanCountWithout(o, q);
  }

  // ----- fork choice -----

  /** Whatever is stored and beats the tip is one of the blocks whose insertion is under way. */
  ghost predicate OnlyPendingBetter(t: Blocks, tip: Option<Entry>, inserting: set<Hash>) {
    tip.Some? ==> forall y :: y in t && Better(t[y], tip.value) ==> y in inserting
  }

  /** The blocks under way are ancestors of the next one, unless already rejected. */
  ghost predicate InsertingChain(t: Blocks, r: set<Hash>, parent: Hash, inserting: set<Hash>)
    requires Linked(t)
  {
    forall g :: g in inserting ==>
      (g in t || g in r) && (parent in t && g in t ==> OnPath(t, parent, g))
  }

  lemma InsertingChainKept(c: Crypto, p: Params, t: Blocks, r: set<Hash>, u: Blocks, s: set<Hash>, extra: set<Hash>,
                           parent: Hash, inserting: set<Hash>)
    requires p.halvingInterval > 0 && Evolves(c, p, t, r, u, s, extra) && t.Keys !! r
    requires parent in inserting && InsertingChain(t, r, parent, inserting)
    ensures InsertingChain(u, s, parent, inserting)
  {
    hide StateValid;
    forall g | g in inserting ensures (g in u || g in s) && (parent in u && g in u ==> OnPath(u, parent, g)) {
      if parent in u && g in u { PathStable(t, u, parent); }
    }
  }

  lemma InsertingChainGrows(t: Blocks, r: set<Hash>, e: Entry, u: Blocks, inserting: set<Hash>)
    requires Linked(t) && Linked(u) && u == t[e.hash := e] && e.hash !in t && e.hash !in r
    requires e.block.prevHash in t && e.block.height > 0
    requires InsertingChain(t, r, e.block.prevHash, inserting)
    ensures InsertingChain(u, r, e.hash, inserting + {e.hash})
  {
    forall g | g in inserting + {e.hash}
      ensures (g in u || g in r) && (g in u ==> OnPath(u, e.hash, g))
    {
      OnPathStep(u, e.hash, g);
      if g != e.hash && g in u {
        PathStable(t, u, e.block.prevHash);
      }
    }
  }

  /** A failed switch to the best block needs no second try: afterwards whatever still beats the
      tip is again among the ancestors under way. */
  lemma FailedSwitchSettles(c: Crypto, p: Params, t: Blocks, r: set<Hash>, u: Blocks, tip: Option<Entry>, best: Entry,
                            h: Hash, inserting: set<Hash>)
    requires TreeOk(c, p, t) && Best(t, best) && h !in inserting
    requires InsertingChain(t, r, h, inserting + {h}) && OnlyPendingBetter(t, tip, inserting + {h})
    requires tip.Some? ==> best != tip.value && tip.value.hash in t && t[tip.value.hash] == tip.value
    requires Agree(t, u) && u.Keys <= t.Keys && best.hash !in u
    ensures OnlyPendingBetter(u, tip, inserting)
  {
    hide EntryOk, Best, Better, InsertingChain;
    if tip.Some? {
      forall y | y in u && Better(u[y], tip.value) ensures y in inserting {
        if y == h {
          BestOnTop(t, best, tip.value);
          BestIsUnderWay(c, p, t, r, best, h, inserting);
        }
      }
    }
  }

  lemma BestOnTop(t: Blocks, best: Entry, tip: Entry)
    requires Linked(t) && Best(t, best) && best != tip && tip.hash in t && t[tip.hash] == tip
    ensures best.hash in t && t[best.hash] == best && Better(best, tip)
  {
    assert LinkedAt(t, tip.hash) && LinkedAt(t, best.hash);
  }

  /** If the best block is under way it is the block just inserted: an ancestor carries less work. */
  lemma BestIsUnderWay(c: Crypto, p: Params, t: Blocks, r: set<Hash>, best: Entry, h: Hash, inserting: set<Hash>)
    requires TreeOk(c, p, t) && Best(t, best) && h in t && InsertingChain(t, r, h, inserting + {h})
    requires best.hash in inserting + {h}
    ensures best.hash == h
  {
    hide EntryOk;
    if best.hash != h {
      assert OnPath(t, h, best.hash);
      AncestorWorse(c, p, t, h, best.hash);
    }
  }

  lemma AncestorWorse(c: Crypto, p: Params, t: Blocks, h: Hash, g: Hash)
    requires TreeOk(c, p, t) && h in t && OnPath(t, h, g) && g != h
    ensures t[g].work < t[h].work
  {
    OnPathHeight(t, h, g);
    PathIsChain(c, p, t, h);
    assert LinkedAt(t, g) && LinkedAt(t, h);
    hide Extends, BlockHash;
    var i := t[g].block.height;
    var path := Path(t, h);
    if i < t[h].block.height {
      WorkGrows(c, p, path, i, |path| - 1);
    }
  }

  /** At most one stored block is best. */
  lemma BestUnique(t: Blocks, e: Entry, f: Entry)
    requires Linked(t) && Best(t, e) && Best(t, f)
    ensures e == f
  {
    assert e.hash != f.hash ==> Better(e, f) && Better(f, e);
  }

  /** With no insertion under way, the tip is the best of the tree. */
  lemma SettledIsBest(t: Blocks, tip: Entry)
    requires Linked(t) && tip.hash in t && t[tip.hash] == tip && OnlyPendingBetter(t, Some(tip), {})
    ensures Best(t, tip)
  {
    forall h | h in t && h != tip.hash ensures Better(tip, t[h]) {
      assert LinkedAt(t, h) && LinkedAt(t, tip.hash);
    }
  }

  // ----- the caches -----

  ghost function HeightIndex(path: seq<Entry>): map<u64, Hash> {
    map i: u64 | 0 <= i < |path| :: path[i].hash
  }

  /** The active chain, genesis first; empty before the first selection. */
  ghost function Active(t: Blocks, tip: Option<Entry>): seq<Entry>
    requires Linked(t)
  {
    if tip.Some? && tip.value.hash in t then Path(t, tip.value.hash) else []
  }

  /** The tip is stored, the accounts are the replay of its whole chain, and the height index
      lists exactly that chain. */
  ghost predicate TipOk(c: Crypto, p: Params, t: Blocks, tip: Option<Entry>, accounts: Accounts, heights: map<u64,
                        Hash>)
    requires p.halvingInterval > 0
  {
    && Linked(t)
    && (tip.Some? ==>
          && tip.value.hash in t && t[tip.value.hash] == tip.value
          && heights == HeightIndex(Path(t, tip.value.hash)))
    && Replay(c, p, Active(t, tip)) == Ok(accounts)
  }

  ghost predicate CheckpointOk(c: Crypto, p: Params, t: Blocks, h: Hash, accounts: Accounts)
    requires p.halvingInterval > 0
  {
    && Linked(t) && h in t
    && t[h].block.height > 0 && t[h].block.height % CHECKPOINT_INTERVAL == 0
    && Replay(c, p, Path(t, h)) == Ok(accounts)
  }

  lemma TipKept(c: Crypto, p: Params, t: Blocks, r: set<Hash>, u: Blocks, s: set<Hash>, extra: set<Hash>,
                tip: Option<Entry>, accounts: Accounts, heights: map<u64, Hash>)
    requires p.halvingInterval > 0 && Evolves(c, p, t, r, u, s, extra) && TipOk(c, p, t, tip, accounts, heights)
    ensures TipOk(c, p, u, tip, accounts, heights) && Active(u, tip) == Active(t, tip)
  {
    if tip.Some? {
      ValidSurvives(c, p, t, r, u, s, extra, tip.value.hash);
    }
  }

  lemma CheckpointKept(c: Crypto, p: Params, t: Blocks, r: set<Hash>, u: Blocks, s: set<Hash>, extra: set<Hash>,
                       h: Hash, accounts: Accounts)
    requires p.halvingInterval > 0 && Evolves(c, p, t, r, u, s, extra) && CheckpointOk(c, p, t, h, accounts)
    ensures CheckpointOk(c, p, u, h, accounts)
  {
    ValidSurvives(c, p, t, r, u, s, extra, h);
  }

  // ----- walking the tree -----

  function Reversed<T>(s: seq<T>): seq<T> {
    seq(|s|, i requires 0 <= i < |s| => s[|s| - 1 - i])
  }

  /** A map access that yields nil when the hash is not stored. */
  function Lookup(t: Blocks, h: Hash): Option<Entry> {
    if h in t then Some(t[h]) else None
  }

  /** Entry i steps back from the end of a path; nothing once genesis is passed. */
  function FromEnd(path: seq<Entry>, i: nat): Option<Entry> {
    if i < |path| then Some(path[|path| - 1 - i]) else None
  }

  /** One step of a walk towards genesis: the parent is the entry before, and genesis has none. */
  lemma WalkStep(t: Blocks, h: Hash, i: nat)
    requires Linked(t) && Rooted(t) && h in t && i <= t[h].block.height
    ensures FromEnd(Path(t, h), i).Some?
    ensures Lookup(t, FromEnd(Path(t, h), i).value.block.prevHash) == FromEnd(Path(t, h), i + 1)
  {
    var k := t[h].block.height - i;
    PathShape(t, h, k);
    if k > 0 { PathShape(t, h, k - 1); }
  }

  /** The block a retarget looks back to is always there. */
  lemma AnchorExists(p: Params, path: seq<Entry>)
    requires 0 < |path| <= TWO64 && p.blocksPerRetarget != 0 && WrapU64(|path|) % p.blocksPerRetarget == 0
    ensures |path| >= p.blocksPerRetarget
  {
    if |path| < TWO64 {
      assert WrapU64(|path|) == |path|;
      if |path| < p.blocksPerRetarget { SmallRemainder(|path|, p.blocksPerRetarget); }
    }
  }

  lemma SmallRemainder(n: nat, d: nat)
    requires n < d
    ensures n % d == n
  {
  }

  function FromHeight(h: nat): Entry -> bool {
    (e: Entry) => e.block.height >= h
  }

  /** On a path from genesis the entries from a height on are a suffix. */
  lemma {:induction false} FromHeightIsSuffix(path: seq<Entry>, h: nat)
    requires HeightsFromGenesis(path) && h <= |path|
    ensures Filter(FromHeight(h), path) == path[h..]
  {
    if |path| == 0 {
    } else {
      var before, last := path[..|path| - 1], path[|path| - 1];
      assert path == before + [last];
      FilterSnoc(FromHeight(h), before, last);
      if h < |path| {
        FromHeightIsSuffix(before, h);
        SuffixSnoc(before, last, h);
      } else {
        NothingFrom(before, h);
      }
    }
  }

  lemma SuffixSnoc(path: seq<Entry>, e: Entry, h: nat)
    requires h <= |path|
    ensures (path + [e])[h..] == path[h..] + [e]
  {
  }

  lemma {:induction false} NothingFrom(path: seq<Entry>, h: nat)
    requires HeightsFromGenesis(path) && h >= |path|
    ensures Filter(FromHeight(h), path) == []
  {
    if |path| == 0 {
    } else {
      NothingFrom(path[..|path| - 1], h);
    }
  }

  /** The children met after x is gone are the proper children of x. */
  lemma ChildrenProper(t: Blocks, x: Hash, children: seq<Hash>)
    requires Ranked(t) && Rooted(t) && x in t
    requires forall y :: y in children <==> y in t - {x} && t[y].block.prevHash == x
    ensures ChildrenOf(t, x, children)
  {
    forall y | y in children ensures t[y].block.height == t[x].block.height + 1 {
      assert RankedAt(t, y);
    }
  }

  lemma RootedWithout(t: Blocks, gone: set<Hash>)
    requires Rooted(t)
    ensures Rooted(t - gone)
  {
  }

  lemma ReversedIs(s: seq<Entry>, r: seq<Entry>)
    requires |r| == |s| && forall k :: 0 <= k < |s| ==> Some(r[k]) == FromEnd(s, k)
    ensures r == Reversed(s)
  {
    forall k | 0 <= k < |s| ensures r[k] == Reversed(s)[k] {
      assert Some(r[k]) == FromEnd(s, k);
    }
  }

  lemma TreeFacts(c: Crypto, p: Params, t: Blocks, r: set<Hash>)
    requires IdealHashes(c) && TreeInv(c, p, t, r)
    ensures Linked(t) && Ranked(t) && Rooted(t)
  {
    hide IdealHashes;
    TreeIsRooted(c, p, t);
  }

  // ----- working accounts of the mempool -----

  /** Pending transactions only move or burn what the chain paid out, so they cannot panic. */
  lemma WorkStaysSmall(work: Accounts, t: Tx)
    requires Total(work) < TWO64
    ensures ApplyTx(work, t) != Err(BalanceOverflow)
    ensures ApplyTx(work, t).Ok? ==> Total(ApplyTx(work, t).value) < TWO64
  {
    TxConserves(work, t);
  }

  lemma TouchKeepsTotal(m: Accounts, a: Address)
    ensures Total(Touch(m, a)) == Total(m)
  {
    TotalAfterWrite(m, a, Get(m, a));
  }

  lemma ConfirmedReversed(c: Crypto, path: seq<Entry>)
    ensures ConfirmedIds(c, Reversed(path)) == ConfirmedIds(c, path)
  {
    forall e ensures e in Reversed(path) <==> e in path {
      if e in path {
        var i :| 0 <= i < |path| && path[i] == e;
        assert Reversed(path)[|path| - 1 - i] == e;
      }
    }
  }

  // ----- replaying and committing a chain -----

  lemma PathHeights(t: Blocks, h: Hash)
    requires Linked(t) && h in t
    ensures HeightsFromGenesis(Path(t, h))
  {
    hide Linked, Path;
    forall i | 0 <= i < |Path(t, h)| ensures Path(t, h)[i].block.height == i {
      PathShape(t, h, i);
    }
  }

  /** On the active chain nothing can overflow: neither the accounts nor the next block. */
  lemma AccountsSmall(c: Crypto, p: Params, t: Blocks, tip: Option<Entry>, accounts: Accounts, heights: map<u64, Hash>)
    requires SoundParams(p) && TipOk(c, p, t, tip, accounts, heights)
    ensures Total(accounts) < TWO64
  {
    if tip.Some? {
      PathReplaySmall(c, p, t, tip.value.hash);
    } else {
      TotalOfNothing();
    }
  }

  lemma PathReplaySmall(c: Crypto, p: Params, t: Blocks, h: Hash)
    requires SoundParams(p) && Linked(t) && h in t
    ensures !Panics(Replay(c, p, Path(t, h)))
    ensures StateValid(c, p, t, h) ==> Total(Replay(c, p, Path(t, h)).value) < TWO64
  {
    hide Linked, Path, Replay, Total;
    PathHeights(t, h);
    ReplayConserves(c, p, Path(t, h));
  }

  lemma ReplayStep(c: Crypto, p: Params, path: seq<Entry>, k: nat)
    requires p.halvingInterval > 0 && k < |path| && Replay(c, p, path[..k]).Ok?
    ensures Replay(c, p, path[..k + 1])
         == if path[k].block.height == 0 then Replay(c, p, path[..k])
            else ApplyBlock(c, p, Replay(c, p, path[..k]).value, path[k].block)
  {
    hide ApplyBlock;
    assert path[..k + 1][..k] == path[..k];
  }

  /** Where replay of a path first fails, the block there is invalid and so is the whole path. */
  lemma FailsHere(c: Crypto, p: Params, t: Blocks, target: Hash, k: nat)
    requires p.halvingInterval > 0 && Linked(t) && target in t && k <= t[target].block.height
    requires Replay(c, p, Path(t, target)[..k + 1]).Err?
    ensures var x := Path(t, target)[k].hash;
            x in t && !StateValid(c, p, t, x) && OnPath(t, target, x)
    ensures !StateValid(c, p, t, target)
    ensures SoundParams(p) ==> !Panics(Replay(c, p, Path(t, target)[..k + 1]))
  {
    hide Linked, Path, Replay, SoundParams;
    PathShape(t, target, k);
    ReplayStopsAtFirstError(c, p, Path(t, target), k + 1);
    if SoundParams(p) { PathReplaySmall(c, p, t, Path(t, target)[k].hash); }
  }

  /** Replay gets as far as block k and fails there. */
  ghost predicate FailsAt(c: Crypto, p: Params, path: seq<Entry>, k: nat)
    requires p.halvingInterval > 0 && k < |path|
  {
    Replay(c, p, path[..k]).Ok? && Replay(c, p, path[..k + 1]).Err?
  }

  /** The first block on target's path at which replay fails is gone and rejected with everything built on
      it, and nothing else is. */
  ghost predicate FirstFailureRejected(c: Crypto, p: Params, t: Blocks, r: set<Hash>, u: Blocks, s: set<Hash>,
                                       target: Hash)
    requires p.halvingInterval > 0
  {
    && Linked(t) && target in t && s == r + (t.Keys - u.Keys)
    && exists k: nat :: k < |Path(t, target)| && FailsAt(c, p, Path(t, target), k)
                        && OnlyDescendantsLost(t, u, Path(t, target)[k].hash)
  }

  /** Losing a block means losing what is built on it. */
  lemma LostWithAncestor(c: Crypto, p: Params, t: Blocks, u: Blocks, target: Hash, x: Hash)
    requires Linked(t) && Linked(u) && Agree(t, u) && u.Keys <= t.Keys
    requires target in t && OnPath(t, target, x) && x !in u
    ensures target !in u
  {
    assert LinkedAt(t, x);
    if target in u {
      PathStable(t, u, target);
      OnPathHeight(t, target, x);
      PathShape(u, target, t[x].block.height);
    }
  }

  lemma CheckpointHere(c: Crypto, p: Params, t: Blocks, target: Hash, k: nat, accounts: Accounts)
    requires p.halvingInterval > 0 && Linked(t) && target in t && 0 < k <= t[target].block.height
    requires Replay(c, p, Path(t, target)[..k + 1]) == Ok(accounts)
    requires Path(t, target)[k].block.height % CHECKPOINT_INTERVAL == 0
    ensures CheckpointOk(c, p, t, Path(t, target)[k].hash, accounts)
  {
    hide Linked, Path, Replay;
    PathShape(t, target, k);
  }

  /** How many entries of a path the deepest checkpoint on it covers. */
  ghost function Covered(path: seq<Entry>, keys: set<Hash>): (k: nat)
    ensures k <= |path| && (k > 0 ==> path[k - 1].hash in keys)
  {
    if |path| == 0 then 0
    else if path[|path| - 1].hash in keys then |path|
    else Covered(path[..|path| - 1], keys)
  }

  lemma CoveredStep(path: seq<Entry>, keys: set<Hash>, i: nat)
    requires i < |path|
    ensures Covered(path[..i + 1], keys) == if path[i].hash in keys then i + 1 else Covered(path[..i], keys)
  {
    assert path[..i + 1][..i] == path[..i];
  }

  /** A checkpoint on a path holds the replay of the path up to it. */
  lemma CheckpointCovers(c: Crypto, p: Params, t: Blocks, h: Hash, k: nat, accounts: Accounts)
    requires p.halvingInterval > 0 && Linked(t) && h in t && 0 < k <= |Path(t, h)|
    requires CheckpointOk(c, p, t, Path(t, h)[k - 1].hash, accounts)
    ensures Replay(c, p, Path(t, h)[..k]) == Ok(accounts)
  {
    hide Linked, Path, Replay;
    PathShape(t, h, k - 1);
  }

  lemma PathExtend(t: Blocks, e: Entry, tipHash: Hash)
    requires Linked(t) && Rooted(t) && e.hash in t && t[e.hash] == e && e.block.prevHash == tipHash && tipHash in t
    ensures Path(t, e.hash) == Path(t, tipHash) + [e] && e.block.height == t[tipHash].block.height + 1
    ensures e.block.height > 0
  {
    assert LinkedAt(t, e.hash);
  }

  lemma HeightIndexExtend(path: seq<Entry>, e: Entry)
    requires |path| < TWO64 && e.block.height == |path|
    ensures HeightIndex(path + [e]) == HeightIndex(path)[e.block.height := e.hash]
  {
  }

  /** Extending the active chain by one valid block is replaying the longer chain. */
  lemma ExtendTipOk(c: Crypto, p: Params, t: Blocks, tip: Entry, e: Entry, accounts: Accounts, heights: map<u64, Hash>,
                    after: Accounts)
    requires p.halvingInterval > 0 && Rooted(t) && TipOk(c, p, t, Some(tip), accounts, heights)
    requires e.hash in t && t[e.hash] == e && e.block.prevHash == tip.hash
    requires ApplyBlock(c, p, accounts, e.block) == Ok(after)
    ensures e.block.height > 0
    ensures TipOk(c, p, t, Some(e), after, heights[e.block.height := e.hash])
    ensures e.block.height % CHECKPOINT_INTERVAL == 0 ==> CheckpointOk(c, p, t, e.hash, after)
  {
    hide ApplyBlock, Linked, HeightIndex;
    PathExtend(t, e, tip.hash);
    var path := Path(t, e.hash);
    assert path[..|path| - 1] == Path(t, tip.hash);
    HeightIndexExtend(Path(t, tip.hash), e);
  }

  lemma ExtendTipFails(c: Crypto, p: Params, t: Blocks, tip: Entry, e: Entry, accounts: Accounts, heights: map<u64,
                       Hash>)
    requires p.halvingInterval > 0 && Rooted(t) && TipOk(c, p, t, Some(tip), accounts, heights)
    requires e.hash in t && t[e.hash] == e && e.block.prevHash == tip.hash
    requires ApplyBlock(c, p, accounts, e.block).Err?
    ensures !StateValid(c, p, t, e.hash)
    ensures SoundParams(p) ==> ApplyBlock(c, p, accounts, e.block) != Err(BalanceOverflow)
    ensures var path := Path(t, e.hash);
            FailsAt(c, p, path, |path| - 1) && path[|path| - 1].hash == e.hash
  {
    hide ApplyBlock, Linked, SoundParams;
    PathExtend(t, e, tip.hash);
    var path := Path(t, e.hash);
    assert path[..|path| - 1] == Path(t, tip.hash) && path[..|path|] == path;
    if SoundParams(p) { PathReplaySmall(c, p, t, e.hash); }
  }

  /** The transactions of a path above a position, newest block first. */
  ghost function RolledBack(path: seq<Entry>, above: nat): seq<Tx> {
    if |path| <= above then []
    else path[|path| - 1].block.txs + RolledBack(path[..|path| - 1], above)
  }

  lemma {:induction false} RolledBackSplit(path: seq<Entry>, low: nat, high: nat)
    requires low <= high <= |path|
    ensures RolledBack(path, low) == RolledBack(path, high) + RolledBack(path[..high], low)
  {
    if high == |path| {
      assert path[..high] == path;
    } else {
      assert path[..|path| - 1][..high] == path[..high];
      RolledBackSplit(path[..|path| - 1], low, high);
    }
  }

  lemma {:induction false} RolledBackConfirmed(c: Crypto, path: seq<Entry>, low: nat, t: Tx)
    requires t in RolledBack(path, low)
    ensures c.txHash(t) in ConfirmedIds(c, path)
  {
    var last, before := path[|path| - 1], path[..|path| - 1];
    if t in last.block.txs {
      assert last in path;
    } else {
      RolledBackConfirmed(c, before, low, t);
      assert forall e :: e in before ==> e in path;
    }
  }

  /** The length of the longest common beginning: one more than the height of the deepest common ancestor. */
  ghost function CommonLen(a: seq<Entry>, b: seq<Entry>): (k: nat)
    ensures k <= |a| && k <= |b| && a[..k] == b[..k]
    ensures k < |a| && k < |b| ==> a[k] != b[k]
  {
    if |a| > 0 && |b| > 0 && a[0] == b[0] then
      assert a == [a[0]] + a[1..] && b == [b[0]] + b[1..];
      1 + CommonLen(a[1..], b[1..])
    else 0
  }

  /** Rolling back everything above genesis rebuilds the same pool as rolling back to the true fork. */
  lemma GenesisForkIsFine(c: Crypto, m: Accounts, pool: seq<Tx>, oldPath: seq<Entry>, newPath: seq<Entry>)
    requires |oldPath| > 0 && |newPath| > 0 && oldPath[0] == newPath[0]
    ensures Rebuilt(c, m, pool + RolledBack(oldPath, 1), ConfirmedIds(c, newPath))
         == Rebuilt(c, m, pool + RolledBack(oldPath, CommonLen(oldPath, newPath)), ConfirmedIds(c, newPath))
  {
    hide Rebuilt, ConfirmedIds, RolledBack;
    var k := CommonLen(oldPath, newPath);
    var shared := RolledBack(oldPath[..k], 1);
    RolledBackSplit(oldPath, 1, k);
    forall t | t in shared ensures c.txHash(t) in ConfirmedIds(c, newPath) {
      RolledBackConfirmed(c, oldPath[..k], 1, t);
      ConfirmedMonotone(c, newPath, k);
    }
    ForkDoesNotMatter(c, m, pool, RolledBack(oldPath, k), shared, ConfirmedIds(c, newPath));
  }

  lemma ConfirmedMonotone(c: Crypto, path: seq<Entry>, k: nat)
    requires k <= |path|
    ensures ConfirmedIds(c, path[..k]) <= ConfirmedIds(c, path)
  {
  }

  /** Every path starts with the same genesis entry. */
  lemma SameRoot(c: Crypto, p: Params, t: Blocks, r: set<Hash>, h: Hash)
    requires TreeInv(c, p, t, r) && h in t
    ensures Path(t, h)[0] == t[GenesisHash(c, p)] && Path(t, h)[0].block.height == 0
  {
    hide GenesisHash, Genesis, BlockHash;
    PathIsChain(c, p, t, h);
    PathShape(t, h, 0);
  }

  lemma BetterTransitive(e: Entry, f: Entry, g: Entry)
    requires Better(e, f) && Better(f, g)
    ensures Better(e, g)
  {
  }

  lemma BetterTotal(e: Entry, f: Entry)
    requires e.hash != f.hash
    ensures Better(e, f) || Better(f, e)
  {
  }

  lemma CoveredNone(path: seq<Entry>, keys: set<Hash>)
    ensures Covered(path[..0], keys) == 0
  {
  }

  lemma RolledBackStep(path: seq<Entry>, k: nat, above: nat)
    requires 0 < k <= |path| && HeightsFromGenesis(path)
    ensures RolledBack(path[..k], above)
         == (if path[k - 1].block.height >= above then path[k - 1].block.txs else []) + RolledBack(path[..k - 1], above)
  {
    assert path[..k][..k - 1] == path[..k - 1];
  }

  lemma RolledBackEnd(above: nat)
    ensures RolledBack([], above) == []
  {
  }

  /** What a replayed path needs to become the active chain. */
  lemma CommitFacts(c: Crypto, p: Params, t: Blocks, h: Hash, accounts: Accounts)
    requires p.halvingInterval > 0 && Linked(t) && h in t && Replay(c, p, Path(t, h)) == Ok(accounts)
    ensures HeightsFromGenesis(Path(t, h)) && |Path(t, h)| <= TWO64
    ensures TipOk(c, p, t, Some(t[h]), accounts, HeightIndex(Path(t, h))) && t[h].hash == h
    ensures SoundParams(p) ==> Total(accounts) < TWO64
  {
    hide Path, Replay, SoundParams, Total;
    assert LinkedAt(t, h);
    PathHeights(t, h);
    if SoundParams(p) { PathReplaySmall(c, p, t, h); }
  }

  /** What trying to make e the tip does: it succeeds exactly when e's whole history is valid and
      then only the tip moves; otherwise the tip stays and e is gone. */
  ghost predicate SwitchOutcome(c: Crypto, p: Params, t: Blocks, r: set<Hash>, tip: Option<Entry>,
                                u: Blocks, s: set<Hash>, newTip: Option<Entry>, e: Entry, ok: bool)
    requires p.halvingInterval > 0
  {
    && e.hash in t
    && Evolves(c, p, t, r, u, s, {}) && u.Keys <= t.Keys
    && (ok <==> StateValid(c, p, t, e.hash))
    && (ok ==> newTip == Some(e) && u == t && s == r)
    && (!ok ==> newTip == tip && e.hash !in u && FirstFailureRejected(c, p, t, r, u, s, e.hash))
  }

  lemma SwitchWorks(c: Crypto, p: Params, t: Blocks, r: set<Hash>, tip: Option<Entry>, e: Entry)
    requires p.halvingInterval > 0 && Evolves(c, p, t, r, t, r, {}) && Linked(t) && e.hash in t
    requires Replay(c, p, Path(t, e.hash)).Ok?
    ensures SwitchOutcome(c, p, t, r, tip, t, r, Some(e), e, true)
  {
    hide Evolves, FirstFailureRejected, Replay, Path, Linked;
  }

  lemma SwitchFails(c: Crypto, p: Params, t: Blocks, r: set<Hash>, tip: Option<Entry>, u: Blocks, s: set<Hash>,
                    e: Entry)
    requires p.halvingInterval > 0 && Linked(t) && e.hash in t && e.hash !in u && u.Keys <= t.Keys
    requires Evolves(c, p, t, r, u, s, {}) && !StateValid(c, p, t, e.hash)
             && FirstFailureRejected(c, p, t, r, u, s, e.hash)
    ensures SwitchOutcome(c, p, t, r, tip, u, s, tip, e, false)
  {
    hide Evolves, FirstFailureRejected, StateValid, Linked;
  }

  lemma ReplayNothing(c: Crypto, p: Params, path: seq<Entry>)
    requires p.halvingInterval > 0
    ensures Replay(c, p, path[..0]) == Ok(map[])
  {
  }

  lemma TipStateValid(c: Crypto, p: Params, t: Blocks, tip: Entry, accounts: Accounts, heights: map<u64, Hash>)
    requires p.halvingInterval > 0 && TipOk(c, p, t, Some(tip), accounts, heights)
    ensures StateValid(c, p, t, tip.hash)
  {
  }

  lemma InReversed(path: seq<Entry>, e: Entry)
    requires e in path
    ensures e in Reversed(path)
  {
    var i :| 0 <= i < |path| && path[i] == e;
    assert Reversed(path)[|path| - 1 - i] == e;
  }

  lemma RejectedApart(c: Crypto, p: Params, t: Blocks, r: set<Hash>)
    requires TreeInv(c, p, t, r)
    ensures t.Keys !! r && t != map[]
    ensures forall h :: h in t ==> t[h].hash == h
  {
    hide BlockHash;
    forall h | h in t ensures t[h].hash == h { assert LinkedAt(t, h); }
  }

  // ----- inserting a block -----

  /** A tip, once there, only ever gives way to a better one. */
  ghost predicate TipImproves(before: Option<Entry>, after: Option<Entry>) {
    before.Some? ==> after.Some? && (after == before || Better(after.value, before.value))
  }

  lemma TipImprovesTrans(a: Option<Entry>, b: Option<Entry>, d: Option<Entry>)
    requires TipImproves(a, b) && TipImproves(b, d)
    ensures TipImproves(a, d)
  {
  }

  ghost predicate TipStoredIn(t: Blocks, tip: Option<Entry>) {
    tip.Some? ==> tip.value.hash in t && t[tip.value.hash] == tip.value
  }

  /** One selection: the best block becomes the tip if its history is valid. */
  ghost predicate Selection(c: Crypto, p: Params, t: Blocks, r: set<Hash>, tip: Option<Entry>, u: Blocks, s: set<Hash>,
                            newTip: Option<Entry>, best: Entry)
    requires p.halvingInterval > 0
  {
    && Best(t, best)
    && (tip == Some(best) ==> newTip == tip && u == t && s == r)
    && (tip != Some(best) ==> exists ok :: SwitchOutcome(c, p, t, r, tip, u, s, newTip, best, ok))
  }

  /** Exactly when a block handed to a settled node is in the tree afterwards: its history is valid, or it
      does not beat the tip and so its state is not looked at yet. */
  ghost predicate KeptByMerit(c: Crypto, p: Params, t: Blocks, tip: Entry, b: Block, u: Blocks)
    requires p.halvingInterval > 0 && Linked(t) && b.prevHash in t
  {
    var e := EntryFor(c, t[b.prevHash], b);
    e.hash in u <==> Replay(c, p, Path(t, b.prevHash) + [e]).Ok? || !Better(e, tip)
  }

  lemma SelectionKeeps(c: Crypto, p: Params, t: Blocks, r: set<Hash>, tip: Entry, b: Block, u: Blocks, s: set<Hash>,
                       newTip: Option<Entry>, best: Entry)
    requires p.halvingInterval > 0 && Linked(t) && b.prevHash in t && Best(t, tip)
    requires var e := EntryFor(c, t[b.prevHash], b);
             && e.hash !in t && Linked(t[e.hash := e]) && Path(t[e.hash := e], e.hash) == Path(t, b.prevHash) + [e]
             && Selection(c, p, t[e.hash := e], r, Some(tip), u, s, newTip, best)
    ensures KeptByMerit(c, p, t, tip, b, u)
  {
    hide BlockHash, Replay, Path, Linked, Evolves, FirstFailureRejected, Better;
    var e := EntryFor(c, t[b.prevHash], b);
    var t1 := t[e.hash := e];
    if Better(e, tip) {
      forall h | h in t && h != tip.hash ensures Better(e, t[h]) {
        BetterTransitive(e, tip, t[h]);
      }
      assert Best(t1, e);
      BestUnique(t1, e, best);
      var ok :| SwitchOutcome(c, p, t1, r, Some(tip), u, s, newTip, best, ok);
    } else {
      BetterTotal(e, tip);
      assert Best(t1, tip);
      BestUnique(t1, tip, best);
    }
  }

  /** After selecting a tip at the end of an insertion of h. */
  lemma AfterSelect(c: Crypto, p: Params, t: Blocks, r: set<Hash>, tip: Option<Entry>, u: Blocks, s: set<Hash>,
                    newTip: Option<Entry>, best: Entry, h: Hash, inserting: set<Hash>)
    requires p.halvingInterval > 0 && TreeInv(c, p, t, r) && TipStoredIn(t, tip)
    requires h !in inserting && InsertingChain(t, r, h, inserting + {h}) && OnlyPendingBetter(t, tip, inserting + {h})
    requires Selection(c, p, t, r, tip, u, s, newTip, best)
    ensures Evolves(c, p, t, r, u, s, {}) && u.Keys <= t.Keys
    ensures OnlyPendingBetter(u, newTip, inserting) && TipImproves(tip, newTip)
  {
    hide Evolves, StateValid, TreeOk, Genesis, GenesisHash, InsertingChain;
    if tip == Some(best) {
      EvolvesNothing(c, p, t, r, {});
      BestSettles(t, best, inserting);
    } else {
      var ok :| SwitchOutcome(c, p, t, r, tip, u, s, newTip, best, ok);
      if ok {
        BestSettles(t, best, inserting);
      } else {
        EvolvesAgree(c, p, t, r, u, s, {});
        FailedSwitchSettles(c, p, t, r, u, tip, best, h, inserting);
      }
    }
  }

  lemma BestSettles(t: Blocks, best: Entry, inserting: set<Hash>)
    requires Best(t, best)
    ensures OnlyPendingBetter(t, Some(best), inserting)
  {
  }

  lemma EvolvesAgree(c: Crypto, p: Params, t: Blocks, r: set<Hash>, u: Blocks, s: set<Hash>, extra: set<Hash>)
    requires p.halvingInterval > 0 && Evolves(c, p, t, r, u, s, extra)
    ensures Agree(t, u) && Linked(t) && Linked(u) && u.Keys <= t.Keys + extra
            && r <= s && u.Keys !! s && s <= r + t.Keys + extra
  {
  }

  /** What the checks say of a block, given what is stored. */
  function Verdict(c: Crypto, p: Params, t: Blocks, r: set<Hash>, path: seq<Entry>, b: Block,
                   now: i64): Option<InsertError>
    requires b.prevHash in t ==> |path| > 0
  {
    var h := BlockHash(c, b);
    if h in t then None
    else if h in r then Some(PreviouslyRejected)
    else if b.height == 0 then Some(UnknownGenesis)
    else if b.prevHash !in t then Some(Orphan)
    else CheckBlock(c, p, path, b, now)
  }

  /** A block that follows the rules and whose time the clock allows is refused in one case only: its hash
      has been rejected. */
  lemma GoodBlockVerdict(c: Crypto, p: Params, t: Blocks, r: set<Hash>, b: Block, now: i64)
    requires Linked(t) && b.prevHash in t && FollowsRules(c, p, Path(t, b.prevHash), b) && ClockAllows(p, b, now)
    ensures Verdict(c, p, t, r, PathOrNothing(t, b.prevHash), b, now)
         == if BlockHash(c, b) in r && BlockHash(c, b) !in t then Some(PreviouslyRejected) else None
  {
    hide BlockHash, FollowsRules, ClockAllows, CheckBlock, Path, Linked;
    GoodHeight(c, p, Path(t, b.prevHash), b);
    CheckBlockMeaning(c, p, Path(t, b.prevHash), b, now);
  }

  lemma GoodHeight(c: Crypto, p: Params, path: seq<Entry>, b: Block)
    requires FollowsRules(c, p, path, b)
    ensures b.height > 0 && |path| > 0 && |b.txs| > 0
  {
    hide NextDifficulty, MeetsTarget, AnchorOf, BlockHash, MerkleRoot;
  }

  ghost function PathOrNothing(t: Blocks, h: Hash): (path: seq<Entry>)
    requires Linked(t)
    ensures h in t ==> path == Path(t, h) && |path| > 0
  {
    if h in t then Path(t, h) else []
  }

  /** An accepted block is stored unless its history is state-invalid, in which case it is rejected. */
  ghost predicate StoredOrInvalid(c: Crypto, p: Params, t: Blocks, u: Blocks, s: set<Hash>, b: Block)
    requires p.halvingInterval > 0 && Linked(t) && b.prevHash in t
  {
    var e := EntryFor(c, t[b.prevHash], b);
    (e.hash in u && u[e.hash] == e) || (e.hash in s && Replay(c, p, Path(t, b.prevHash) + [e]).Err?)
  }

  lemma AcceptedExtends(c: Crypto, p: Params, path: seq<Entry>, b: Block, now: i64)
    requires |path| > 0 && b.height != 0 && CheckBlock(c, p, path, b, now).None?
    ensures Extends(c, p, path, EntryFor(c, path[|path| - 1], b))
  {
    hide CheckBlock, FollowsRules;
    CheckBlockMeaning(c, p, path, b, now);
  }

  lemma StoredFate(c: Crypto, p: Params, t: Blocks, r: set<Hash>, u: Blocks, s: set<Hash>, q: set<Hash>, b: Block,
                   extra: set<Hash>)
    requires p.halvingInterval > 0 && Linked(t) && b.prevHash in t
    requires var e := EntryFor(c, t[b.prevHash], b);
             && Linked(t[e.hash := e]) && Path(t[e.hash := e], e.hash) == Path(t, b.prevHash) + [e]
             && Evolves(c, p, t[e.hash := e], r, u, s, extra)
    ensures StoredOrInvalid(c, p, t, u, s, b)
  {
    hide Path, Replay, Linked;
  }

  lemma ParentsStillMissing(o: Orphans, t: Blocks, u: Blocks, except: set<Hash>)
    requires ParentsMissing(o, t, except) && u.Keys <= t.Keys
    ensures ParentsMissing(o, u, except)
  {
  }

  lemma NoOrphans(o: Orphans)
    ensures OrphanCount(o - o.Keys) == 0
  {
    assert o - o.Keys == map[];
  }

  lemma OrphanCountVisit(o: Orphans, left: set<Hash>, q: Hash)
    requires q in left && left <= o.Keys
    ensures OrphanCount(o - (left - {q})) == OrphanCount(o - left) + |o[q]|
  {
    assert o - (left - {q}) == (o - left)[q := o[q]];
    OrphanCountWrite(o - left, q, o[q]);
  }

  lemma GenesisIsStored(c: Crypto, p: Params, t: Blocks, r: set<Hash>, h: Hash)
    requires TreeInv(c, p, t, r) && h !in t
    ensures h != GenesisHash(c, p)
  {
  }

  lemma ParentEntry(c: Crypto, p: Params, t: Blocks, r: set<Hash>, h: Hash)
    requires TreeInv(c, p, t, r) && h in t
    ensures t[h].hash == h && Path(t, h)[|Path(t, h)| - 1] == t[h] && |Path(t, h)| > 0
  {
    assert LinkedAt(t, h);
  }

  lemma StillMissing(c: Crypto, o: Orphans, b: Block, t: Blocks)
    requires OrphansOk(c, o) && ParentsMissing(o, t, {}) && b.prevHash !in t
    ensures ParentsMissing(AddedOrphan(c, o, b), t, {})
  {
    AddedOrphanOk(c, o, b);
  }

  lemma TipImprovesSelf(tip: Option<Entry>)
    ensures TipImproves(tip, tip)
  {
  }

  /** A block just stored is under way, and only its own orphans have their parent stored. */
  lemma NewOneUnderWay(c: Crypto, o: Orphans, t: Blocks, u: Blocks, tip: Option<Entry>, e: Entry, inserting: set<Hash>)
    requires u == t[e.hash := e] && ParentsMissing(o, t, {}) && OnlyPendingBetter(t, tip, inserting)
    ensures ParentsMissing(o, u, {e.hash}) && OnlyPendingBetter(u, tip, inserting + {e.hash})
  {
  }

  lemma NotUnderWay(t: Blocks, r: set<Hash>, parent: Hash, inserting: set<Hash>, h: Hash)
    requires Linked(t) && InsertingChain(t, r, parent, inserting) && h !in t && h !in r
    ensures h !in inserting
  {
  }

  // ----- adding a transaction -----

  lemma IdealIds(c: Crypto)
    requires IdealHashes(c)
    ensures TxIdsDistinct(c)
  {
  }

  /** A transaction that applies has the right nonce and the funds. */
  lemma ApplyNeeds(m: Accounts, t: Tx)
    requires ApplyTx(m, t).Ok?
    ensures t.nonce == Get(m, t.from).nonce && Get(m, t.from).balance >= WrapU64(t.amount + t.fee)
  {
  }

  lemma {:induction false} IndexedSize(order: seq<Hash>, keys: set<Hash>)
    requires NoDuplicates(order) && forall h :: h in order <==> h in keys
    ensures |order| == |keys|
  {
    if |order| == 0 {
      assert keys == {};
    } else {
      var h, init := order[|order| - 1], order[..|order| - 1];
      forall g ensures g in init <==> g in keys - {h} {
        assert order == init + [h];
      }
      IndexedSize(init, keys - {h});
    }
  }

  /** A verified transaction that applies after the pool extends it, under an id that is new. */
  lemma PoolGrows(c: Crypto, m: Accounts, order: seq<Hash>, table: map<Hash, Tx>, t: Tx)
    requires TxIdsDistinct(c) && PoolOk(c, m, order, table) && |table| < MAX_MEMPOOL
    requires Verify(c, t).None? && ApplyTx(ApplyAll(m, PoolOf(order, table)).value, t).Ok?
    ensures c.txHash(t) !in table && |order| == |table|
    ensures PoolOk(c, m, order + [c.txHash(t)], table[c.txHash(t) := t])
    ensures ApplyAll(m, PoolOf(order + [c.txHash(t)], table[c.txHash(t) := t]))
            == ApplyTx(ApplyAll(m, PoolOf(order, table)).value, t)
  {
    hide Verify, TxIdsDistinct, ApplyTx, PoolOf;
    var h, pool := c.txHash(t), PoolOf(order, table);
    IndexedSize(order, table.Keys);
    ApplyNeeds(ApplyAll(m, pool).value, t);
    NewTxIsNew(c, m, order, table, t);
    PoolAppend(order, table, h, t);
    assert (pool + [t])[..|pool|] == pool;
  }

  // ----- mining and booting -----

  lemma NobodyInserting(t: Blocks, r: set<Hash>, parent: Hash)
    requires Linked(t)
    ensures InsertingChain(t, r, parent, {})
  {
  }

  lemma TreeGivesChain(c: Crypto, p: Params, t: Blocks, r: set<Hash>, h: Hash)
    requires TreeInv(c, p, t, r) && h in t
    ensures Linked(t) && ChainOk(c, p, Path(t, h)) && HeightsFromGenesis(Path(t, h))
  {
    hide Genesis, GenesisHash, EntryOk, ChainOk, Path;
    PathIsChain(c, p, t, h);
    PathHeights(t, h);
  }

  lemma TipReplay(c: Crypto, p: Params, t: Blocks, tip: Option<Entry>, accounts: Accounts, heights: map<u64, Hash>)
    requires p.halvingInterval > 0 && TipOk(c, p, t, tip, accounts, heights)
    ensures Linked(t) && Replay(c, p, Active(t, tip)) == Ok(accounts)
  {
  }

  lemma PoolVerified(c: Crypto, m: Accounts, order: seq<Hash>, table: map<Hash, Tx>)
    requires PoolOk(c, m, order, table)
    ensures forall t :: t in PoolOf(order, table) ==> Verify(c, t).None?
  {
    hide Verify, PoolOf, ApplyAll;
    forall t | t in PoolOf(order, table) ensures Verify(c, t).None? {
      PoolMembers(order, table, t);
    }
  }

  lemma ReplayOneMore(c: Crypto, p: Params, path: seq<Entry>, e: Entry)
    requires p.halvingInterval > 0 && Replay(c, p, path).Ok? && e.block.height > 0
    requires ApplyBlock(c, p, Replay(c, p, path).value, e.block).Ok?
    ensures Replay(c, p, path + [e]).Ok?
  {
    hide ApplyBlock;
    assert (path + [e])[..|path + [e]| - 1] == path;
  }

  lemma MinedStays(c: Crypto, p: Params, t: Blocks, u: Blocks, s: set<Hash>, b: Block)
    requires p.halvingInterval > 0 && Linked(t) && b.prevHash in t && StoredOrInvalid(c, p, t, u, s, b)
    requires Replay(c, p, Path(t, b.prevHash) + [EntryFor(c, t[b.prevHash], b)]).Ok?
    ensures BlockHash(c, b) in u && u[BlockHash(c, b)] == EntryFor(c, t[b.prevHash], b)
    ensures u[BlockHash(c, b)].block == b
  {
    hide Replay, Path, Linked, BlockHash;
  }

  /** The tree after the first insertion. */
  function FirstStored(c: Crypto, b: Block): Blocks {
    map[BlockHash(c, b) := Entry(b, BlockHash(c, b), 0)]
  }

  lemma GenesisIsOwn(c: Crypto, p: Params)
    ensures BlockHash(c, Genesis(p)) == GenesisHash(c, p)
  {
  }

  /** What carries the genesis hash has the genesis header. */
  lemma GenesisHeader(c: Crypto, p: Params, b: Block)
    requires IdealHashes(c) && BlockHash(c, b) == GenesisHash(c, p)
    ensures b.(txs := []) == Genesis(p) && b.height == 0
  {
    assert Genesis(p).(txs := []) == Genesis(p);
    assert b.(txs := []).height == b.height;
  }

  lemma FirstTree(c: Crypto, p: Params, b: Block)
    requires p.halvingInterval > 0 && IdealHashes(c) && BlockHash(c, b) == GenesisHash(c, p)
    ensures TreeInv(c, p, FirstStored(c, b), {}) && Linked(FirstStored(c, b))
    ensures forall heights :: TipOk(c, p, FirstStored(c, b), None, map[], heights)
  {
    hide BlockHash, Genesis, IdealHashes;
    GenesisHeader(c, p, b);
    var t := FirstStored(c, b);
    forall h | h in t ensures LinkedAt(t, h) {}
  }

  lemma FirstOrphans(c: Crypto)
    ensures OrphansOk(c, map[])
  {
  }

  lemma FirstPool(c: Crypto)
    ensures PoolOk(c, map[], [], map[])
  {
  }

  // ----- loading stored blocks -----

  /** What one more stored block makes of the tree: nothing if its checks fail. */
  ghost function AddStored(c: Crypto, p: Params, t: Blocks, b: Block, now: i64): Option<Blocks>
    requires Linked(t)
  {
    var h := BlockHash(c, b);
    if Verdict(c, p, t, {}, PathOrNothing(t, b.prevHash), b, now).Some? then None
    else if h in t then Some(t)
    else Some(t[h := EntryFor(c, t[b.prevHash], b)])
  }

  /** The tree of a list of stored blocks, genesis first, each checked on the ones before it. */
  ghost function LoadAll(c: Crypto, p: Params, disk: seq<Block>, clock: nat -> i64): Option<Blocks> {
    if |disk| == 0 then None
    else if |disk| == 1 then
      if BlockHash(c, disk[0]) == GenesisHash(c, p) then Some(FirstStored(c, disk[0])) else None
    else
      match LoadAll(c, p, disk[..|disk| - 1], clock)
      case None => None
      case Some(t) => if Linked(t) then AddStored(c, p, t, disk[|disk| - 1], clock(|disk| - 1)) else None
  }

  lemma LoadFirst(c: Crypto, p: Params, disk: seq<Block>, clock: nat -> i64)
    requires |disk| > 0
    ensures LoadAll(c, p, disk[..1], clock)
         == if BlockHash(c, disk[0]) == GenesisHash(c, p) then Some(FirstStored(c, disk[0])) else None
  {
    hide Genesis, BlockHash, GenesisHash, FirstStored;
  }

  lemma LoadNext(c: Crypto, p: Params, disk: seq<Block>, clock: nat -> i64, i: nat, t: Blocks)
    requires 0 < i < |disk| && Linked(t) && LoadAll(c, p, disk[..i], clock) == Some(t)
    ensures LoadAll(c, p, disk[..i + 1], clock) == AddStored(c, p, t, disk[i], clock(i))
  {
    hide AddStored, Linked, GenesisHash, FirstStored;
    assert disk[..i + 1][..i] == disk[..i];
  }

  /** The first block that fails its checks makes loading fail. */
  lemma {:induction false} LoadStops(c: Crypto, p: Params, disk: seq<Block>, clock: nat -> i64, i: nat)
    requires 0 < i <= |disk| && LoadAll(c, p, disk[..i], clock).None?
    ensures LoadAll(c, p, disk, clock).None?
  {
    hide AddStored, Linked, GenesisHash, FirstStored;
    if i == |disk| {
      assert disk[..i] == disk;
    } else {
      var before := disk[..|disk| - 1];
      assert before[..i] == disk[..i];
      LoadStops(c, p, before, clock, i);
    }
  }

  /** An insertion while booting does what loading says. */
  lemma LoadedOne(c: Crypto, p: Params, t: Blocks, b: Block, now: i64, u: Blocks, s: set<Hash>)
    requires p.halvingInterval > 0 && Linked(t) && s == {}
             && Evolves(c, p, t, {}, u, s, {BlockHash(c, b)} + OrphanIds(c, map[]))
    requires Verdict(c, p, t, {}, PathOrNothing(t, b.prevHash), b, now).None?
    requires BlockHash(c, b) in t ==> u == t
    requires BlockHash(c, b) !in t ==> b.prevHash in t && StoredOrInvalid(c, p, t, u, s, b)
    ensures AddStored(c, p, t, b, now) == Some(u)
  {
    hide BlockHash, StateValid, Linked, CheckBlock, Replay, Path;
    if BlockHash(c, b) !in t {
      assert u == t[BlockHash(c, b) := EntryFor(c, t[b.prevHash], b)];
    }
  }

  /** What has been loaded are exactly the stored blocks. */
  lemma {:induction false} LoadedIsDisk(c: Crypto, p: Params, disk: seq<Block>, clock: nat -> i64)
    requires LoadAll(c, p, disk, clock).Some?
    ensures var t := LoadAll(c, p, disk, clock).value;
            && (forall i :: 0 <= i < |disk| ==> BlockHash(c, disk[i]) in t)
            && (forall h :: h in t ==> exists i :: 0 <= i < |disk| && h == BlockHash(c, disk[i])
                                                   && t[h].block == disk[i])
  {
    hide BlockHash, Verdict, Linked, Genesis, PathOrNothing;
    var last, before := disk[|disk| - 1], disk[..|disk| - 1];
    var t := LoadAll(c, p, disk, clock).value;
    if |disk| <= 1 {
    } else {
      LoadedIsDisk(c, p, before, clock);
      var t1 := LoadAll(c, p, before, clock).value;
      forall i | 0 <= i < |disk| ensures BlockHash(c, disk[i]) in t {
        if i < |before| { assert BlockHash(c, before[i]) in t1; }
      }
      forall h | h in t ensures exists i :: 0 <= i < |disk| && h == BlockHash(c, disk[i]) && t[h].block == disk[i] {
        if h in t1 {
          var i :| 0 <= i < |before| && h == BlockHash(c, before[i]) && t1[h].block == before[i];
          assert disk[i] == before[i];
        }
      }
    }
  }

  lemma StillNoOrphans(c: Crypto, o: Orphans)
    requires OrphansOk(c, o) && OrphanCount(o) <= OrphanCount(map[])
    ensures o == map[]
  {
    forall q ensures q !in o {
      if q in o { OrphanCountWithout(o, q); }
    }
  }

  lemma NoneMissing(t: Blocks)
    ensures ParentsMissing(map[], t, {})
  {
  }

  lemma BootOutcome(c: Crypto, p: Params, t: Blocks, r: set<Hash>, tip: Option<Entry>, u: Blocks, s: set<Hash>,
                    best: Entry)
    requires p.halvingInterval > 0 && Linked(t) && TipStoredIn(u, tip) && Selection(c, p, t, r, None, u, s, tip, best)
    ensures tip.Some? <==> StateValid(c, p, t, best.hash)
    ensures tip.Some? ==> tip.value == best && u == t && s == r
    ensures Linked(u) && u.Keys <= t.Keys && OnlyPendingBetter(u, tip, {})
  {
    hide StateValid, Linked;
    var ok :| SwitchOutcome(c, p, t, r, None, u, s, tip, best, ok);
    if ok { BestSettles(t, best, {}); }
  }

  lemma GenesisBootOutcome(c: Crypto, p: Params, best: Entry)
    requires p.halvingInterval > 0 && IdealHashes(c) && Best(FirstStored(c, Genesis(p)), best)
    ensures Linked(FirstStored(c, Genesis(p))) && best == Entry(Genesis(p), GenesisHash(c, p), 0)
    ensures StateValid(c, p, FirstStored(c, Genesis(p)), best.hash)
  {
    hide BlockHash, Best, IdealHashes;
    FirstTree(c, p, Genesis(p));
    GenesisValid(c, p, FirstStored(c, Genesis(p)), {});
    BestStored(FirstStored(c, Genesis(p)), best);
  }

  lemma BestStored(t: Blocks, best: Entry)
    requires Best(t, best)
    ensures best.hash in t && t[best.hash] == best
  {
  }

  lemma PathStoredHere(t: Blocks, h: Hash)
    requires Linked(t) && h in t
    ensures forall e :: e in Path(t, h) ==> e.hash in t && t[e.hash] == e
  {
    hide Linked, Path;
    forall e | e in Path(t, h) ensures e.hash in t && t[e.hash] == e {
      var i :| 0 <= i < |Path(t, h)| && Path(t, h)[i] == e;
      PathShape(t, h, i);
    }
  }

  /** Stored chains start from the empty genesis, and every other block from its coinbase. */
  lemma TreeGivesWellFormed(c: Crypto, p: Params, t: Blocks, r: set<Hash>, h: Hash)
    requires TreeInv(c, p, t, r) && h in t
    ensures Linked(t) && WellFormedChain(Path(t, h))
  {
    hide NextDifficulty, AnchorOf, MeetsTarget, MerkleRoot, BlockHash, Path;
    PathStoredHere(t, h);
    forall e | e in Path(t, h)
      ensures e.block.height > 0 ==> |e.block.txs| > 0 && IsCoinbase(e.block.txs[0])
    {
      assert EntryOk(c, p, t, e.hash);
    }
  }
}
