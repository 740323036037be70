/** Runs of the node from genesis that end where a property fails. */
module FailingRuns {
  import opened Basics
  import opened Chain
  import opened Ledger
  import opened Tree
  import opened Conservation
  import opened Mempool
  import opened Merkle
  import opened NodeRules
  import opened Assumptions
  import opened FullNode

  ghost predicate Usual(p: Params) {
    && p.halvingInterval > 0 && SoundParams(p) && p.maxTxsPerBlock >= 1 && p.genesisTime < TWO63 - 1
    && 0 < RewardAt(p, 1) < TWO64 - 1
  }

  /** A node at genesis that is handed the twin of the first block refuses the first block. */
  method GoodBlockRefused(p: Params, clock: nat -> i64, now: i64, later: i64)
    returns (n: Node, first: Option<InsertError>, second: Option<InsertError>)
    requires Usual(p) && ClockAllows(p, FirstBlock(p, RewardAt(p, 1)), now)
    ensures fresh(n) && n.c == Lucky(FirstBlock(p, RewardAt(p, 1))) && n.p == p && n.Valid()
    ensures first.None? && second == Some(PreviouslyRejected)
  {
    var b := FirstBlock(p, RewardAt(p, 1));
    n := AtGenesis(p, b, clock);
    FirstPromises(n, p, now);
    first, second := n.TwinFirst(b, now, later);
  }

  /** A node that has just chosen genesis as its tip. */
  method AtGenesis(p: Params, b: Block, clock: nat -> i64) returns (n: Node)
    requires Usual(p) && b.height == 1 && b.prevHash == 2 + Code(HeaderNumbers(Genesis(p)))
    ensures fresh(n) && n.c == Lucky(b) && n.p == p && n.Valid() && !n.booting && n.tip == Some(Root(p))
    ensures n.blocks == map[b.prevHash := Root(p)] && n.rejected == {} && n.orphans == map[]
  {
    hide Code, HeaderNumbers, TxNumbers, RewardAt, SoundParams, IdealHashes, IdealRoots, LoadAll, FirstStored;
    var c := Lucky(b);
    IdealHashesExist(b);
    RootStored(p, b);
    n := new Node(c, p);
    var ok;
    ghost var loaded, best;
    ok, loaded, best := n.Boot([], clock);
    GenesisIsOwn(c, p);
    LoadFirst(c, p, [Genesis(p)], clock);
    assert [Genesis(p)][..1] == [Genesis(p)];
  }

  lemma FirstPromises(n: Node, p: Params, now: i64)
    requires Usual(p) && ClockAllows(p, FirstBlock(p, RewardAt(p, 1)), now)
    requires var b := FirstBlock(p, RewardAt(p, 1));
             && n.c == Lucky(b) && n.p == p && n.tip == Some(Root(p))
             && n.blocks == map[b.prevHash := Root(p)] && n.rejected == {} && n.orphans == map[]
    ensures n.Promising(FirstBlock(p, RewardAt(p, 1)), now) && n.HasValidState(FirstBlock(p, RewardAt(p, 1)))
    ensures IdsRespect(n.c)
  {
    hide Code, HeaderNumbers, TxNumbers, NextDifficulty, AnchorOf, RewardAt, FollowsRules, IdealHashes, ApplyBlock,
         IdsRespect, Path, Linked, Verify;
    var b, c := FirstBlock(p, RewardAt(p, 1)), n.c;
    FirstBlockHeader(p, RewardAt(p, 1));
    IdealHashesExist(b);
    RootStored(p, b);
    RulesCanBeMet(p, RewardAt(p, 1));
    StateCanBeValid(p);
    RootReplays(c, p);
    ReplayOneMore(c, p, [Root(p)], EntryFor(c, Root(p), b));
  }

  /** A node at genesis that is handed a first block paying one too much takes it without an error and has
      rejected it afterwards. */
  method BadBlockTaken(p: Params, clock: nat -> i64, now: i64) returns (n: Node, err: Option<InsertError>)
    requires Usual(p) && ClockAllows(p, FirstBlock(p, RewardAt(p, 1) + 1), now)
    ensures var b := FirstBlock(p, RewardAt(p, 1) + 1);
            && fresh(n) && n.c == Lucky(b) && n.p == p && n.Valid()
            && err.None? && BlockHash(n.c, b) in n.rejected && BlockHash(n.c, b) !in n.blocks
  {
    var b := FirstBlock(p, RewardAt(p, 1) + 1);
    FirstBlockHeader(p, RewardAt(p, 1) + 1);
    n := AtGenesis(p, b, clock);
    OverpaidPromises(n, p, now);
    err := n.TakePromising(b, now);
  }

  lemma OverpaidPromises(n: Node, p: Params, now: i64)
    requires Usual(p) && ClockAllows(p, FirstBlock(p, RewardAt(p, 1) + 1), now)
    requires var b := FirstBlock(p, RewardAt(p, 1) + 1);
             && n.c == Lucky(b) && n.p == p && n.tip == Some(Root(p))
             && n.blocks == map[b.prevHash := Root(p)] && n.rejected == {} && n.orphans == map[]
    ensures n.Promising(FirstBlock(p, RewardAt(p, 1) + 1), now)
    ensures !n.HasValidState(FirstBlock(p, RewardAt(p, 1) + 1))
  {
    hide Code, HeaderNumbers, TxNumbers, NextDifficulty, AnchorOf, RewardAt, FollowsRules, IdealHashes, ApplyBlock,
         Path, Linked, Verify;
    var b, c := FirstBlock(p, RewardAt(p, 1) + 1), n.c;
    FirstBlockHeader(p, RewardAt(p, 1) + 1);
    RootStored(p, b);
    RulesCanBeMet(p, RewardAt(p, 1) + 1);
    WrongAmount(c, p, b);
    RootReplays(c, p);
    assert ([Root(p)] + [EntryFor(c, Root(p), b)])[..1] == [Root(p)];
  }

  /** With the first k payments pending one more is taken below the cap; at the cap it is refused and the cache
      spoilt. */
  method Pay(n: Node, chosen: Block, k: nat) returns (err: Option<AddError>)
    requires n.Valid() && n.c == Lucky(chosen) && k <= MAX_MEMPOOL
    requires Get(n.state.accounts, ALICE).nonce == 0 && Get(n.state.accounts, ALICE).balance > 0
    requires n.mempoolOrder == PaymentIds(n.c, k) && n.mempoolTx == PaymentTable(n.c, k)
    requires PoolOk(n.c, n.state.accounts, n.mempoolOrder, n.mempoolTx) && Same(n.Cached(), n.AfterPool())
    requires n.seenTx == n.mempoolTx.Keys
    modifies n, n.pending
    ensures n.Valid() && n.state.accounts == old(n.state.accounts) && (n.pending == old(n.pending) || fresh(n.pending))
    ensures PoolOk(n.c, n.state.accounts, n.mempoolOrder, n.mempoolTx)
    ensures if k < MAX_MEMPOOL
            then && err.None? && n.mempoolOrder == PaymentIds(n.c, k + 1) && n.mempoolTx == PaymentTable(n.c, k + 1)
                 && Same(n.Cached(), n.AfterPool()) && n.seenTx == n.mempoolTx.Keys
            else && err == Some(MempoolFull) && !n.Exact()
                 && n.mempoolOrder == old(n.mempoolOrder) && n.mempoolTx == old(n.mempoolTx)
  {
    hide *;
    NothingPaid(n.c);
    NextPayment(chosen, n.state.accounts, k);
    n.PoolApplied();
    n.SeenGrows(n.c.txHash(Payment(k)));
    err := n.Offer(Payment(k));
  }

  /** On a settled node with nothing pending, payments are taken up to the cap; the next one is refused, although
      it verifies and applies, and what the next reader sees is not what the mempool leaves. */
  method OneTooMany(n: Node, chosen: Block) returns (err: Option<AddError>)
    requires n.Valid() && n.c == Lucky(chosen) && n.mempoolTx == map[] && n.mempoolOrder == [] && n.seenTx == {}
    requires Get(n.state.accounts, ALICE).nonce == 0 && Get(n.state.accounts, ALICE).balance > 0
    modifies n, n.pending
    ensures n.Valid() && n.mempoolOrder == PaymentIds(n.c, MAX_MEMPOOL) && |n.mempoolTx| == MAX_MEMPOOL
    ensures Verify(n.c, Payment(MAX_MEMPOOL)).None? && ApplyTx(n.AfterPool(), Payment(MAX_MEMPOOL)).Ok?
    ensures err == Some(MempoolFull) && !n.Exact()
  {
    hide *;
    NothingPaid(n.c);
    n.CacheRight();
    for i := 0 to MAX_MEMPOOL
      invariant n.Valid() && n.c == Lucky(chosen) && n.state.accounts == old(n.state.accounts)
      invariant n.mempoolOrder == PaymentIds(n.c, i) && n.mempoolTx == PaymentTable(n.c, i)
      invariant PoolOk(n.c, n.state.accounts, n.mempoolOrder, n.mempoolTx) && Same(n.Cached(), n.AfterPool())
      invariant n.seenTx == n.mempoolTx.Keys
      invariant n.pending == old(n.pending) || fresh(n.pending)
    {
      var refused := Pay(n, chosen, i);
    }
    NextPayment(chosen, n.state.accounts, MAX_MEMPOOL);
    err := Pay(n, chosen, MAX_MEMPOOL);
    n.PoolApplied();
  }
}
