/** The idealised digests every statement about the tree assumes can be had, with blocks that obey the rules
    and transactions that verify; and the inputs at which stated properties fail. */
module Assumptions {
  import opened Basics
  import opened Chain
  import opened Codec
  import opened Ledger
  import opened Tree
  import opened Nonces
  import opened Mempool
  import opened Merkle
  import opened NodeRules
  import opened StableSort
  import opened ReorgPool
  import opened RetargetRule

  /** A pair of numbers as one positive number. */
  function Pair(a: nat, b: nat): (r: nat)
    ensures r > 0
  {
    if a == 0 then 2 * b + 1 else 2 * Pair(a - 1, b)
  }

  lemma {:induction false} PairInjective(a: nat, b: nat, x: nat, y: nat)
    requires Pair(a, b) == Pair(x, y)
    ensures a == x && b == y
  {
    if a == 0 || x == 0 {
    } else {
      PairInjective(a - 1, b, x - 1, y);
    }
  }

  /** A sequence of numbers as one number. */
  function Code(s: seq<nat>): nat {
    if |s| == 0 then 0 else Pair(Code(s[1..]), s[0])
  }

  lemma {:induction false} CodeInjective(s: seq<nat>, t: seq<nat>)
    requires Code(s) == Code(t)
    ensures s == t
  {
    if |s| == 0 || |t| == 0 {
    } else {
      PairInjective(Code(s[1..]), s[0], Code(t[1..]), t[0]);
      CodeInjective(s[1..], t[1..]);
      assert s == [s[0]] + s[1..] && t == [t[0]] + t[1..];
    }
  }

  function Points(s: string): (n: seq<nat>)
    ensures |n| == |s| && forall i :: 0 <= i < |s| ==> n[i] == s[i] as int
  {
    seq(|s|, i requires 0 <= i < |s| => s[i] as int)
  }

  lemma TextInjective(s: string, t: string)
    requires Code(Points(s)) == Code(Points(t))
    ensures s == t
  {
    CodeInjective(Points(s), Points(t));
    forall i | 0 <= i < |s| ensures s[i] == t[i] {
      assert Points(s)[i] == Points(t)[i];
    }
  }

  function HeaderNumbers(b: Block): (s: seq<nat>)
    ensures |s| == 8
  {
    [b.height, b.prevHash, Unsigned(b.time), b.difficulty, Code(Points(b.miner)), b.extraNonce, b.merkleRoot, b.nonce]
  }

  function TxNumbers(t: Tx): (s: seq<nat>)
    ensures |s| == 8
  {
    [Code(Points(t.from)), Code(Points(t.to)), t.amount, t.fee, t.nonce, Unsigned(t.time), Code(Written(t.pubKey)),
     Code(Written(t.sig))]
  }

  /** Digests that never collide and by which one chosen header is as lucky as can be; one key is everybody's
      and every signature is good. */
  function Lucky(chosen: Block): Crypto {
    Crypto(b => HeaderCode(chosen, b), t => 2 * Code(TxNumbers(t)) + 1, (a, b) => 2 * Pair(a, b),
           a => true, k => ALICE, (k, t, s) => true)
  }

  const ALICE: Address := "a"

  function HeaderCode(chosen: Block, b: Block): Hash {
    if b == chosen.(txs := []) then 1 else 2 + Code(HeaderNumbers(b))
  }

  lemma HeadersDiffer(chosen: Block, a: Block, b: Block)
    requires a.txs == [] && b.txs == [] && HeaderCode(chosen, a) == HeaderCode(chosen, b)
    ensures a == b
  {
    hide Code, Points;
    if a != chosen.(txs := []) && b != chosen.(txs := []) {
      var s, t := HeaderNumbers(a), HeaderNumbers(b);
      CodeInjective(s, t);
      assert s[0] == t[0] && s[1] == t[1] && s[2] == t[2] && s[3] == t[3];
      assert s[4] == t[4] && s[5] == t[5] && s[6] == t[6] && s[7] == t[7];
      TextInjective(a.miner, b.miner);
    }
  }

  lemma TxsDiffer(a: Tx, b: Tx)
    ensures Code(TxNumbers(a)) == Code(TxNumbers(b)) <==> SameTx(a, b)
  {
    hide Code, Points;
    if Code(TxNumbers(a)) == Code(TxNumbers(b)) {
      var s, t := TxNumbers(a), TxNumbers(b);
      CodeInjective(s, t);
      assert s[0] == t[0] && s[1] == t[1] && s[2] == t[2] && s[3] == t[3];
      assert s[4] == t[4] && s[5] == t[5] && s[6] == t[6] && s[7] == t[7];
      TextInjective(a.from, b.from);
      TextInjective(a.to, b.to);
      CodeInjective(Written(a.pubKey), Written(b.pubKey));
      CodeInjective(Written(a.sig), Written(b.sig));
    }
    if SameTx(a, b) { assert TxNumbers(a) == TxNumbers(b); }
  }

  /** The assumptions on digests can be met. */
  lemma IdealHashesExist(chosen: Block)
    ensures IdealHashes(Lucky(chosen)) && IdealRoots(Lucky(chosen))
  {
    hide HeaderNumbers, TxNumbers, SameTx, HeaderCode, Pair;
    var c := Lucky(chosen);
    forall a, b | BlockHash(c, a) == BlockHash(c, b) ensures a.(txs := []) == b.(txs := []) {
      HeadersDiffer(chosen, a.(txs := []), b.(txs := []));
    }
    forall b ensures BlockHash(c, b) != 0 {
      NeverZero(chosen, b.(txs := []));
    }
    forall s, t ensures c.txHash(s) == c.txHash(t) <==> SameTx(s, t) {
      TxsDiffer(s, t);
    }
    forall a, b, x, y | c.pairHash(a, b) == c.pairHash(x, y) ensures a == x && b == y {
      PairInjective(a, b, x, y);
    }
    PairsApart(chosen);
  }

  lemma NeverZero(chosen: Block, b: Block)
    ensures HeaderCode(chosen, b) != 0
  {
  }

  lemma PairsApart(chosen: Block)
    ensures forall t, a, b :: Lucky(chosen).txHash(t) != Lucky(chosen).pairHash(a, b)
    ensures forall t :: Lucky(chosen).txHash(t) != 0
    ensures forall a, b :: Lucky(chosen).pairHash(a, b) != 0
  {
    hide Code, TxNumbers;
  }

  // ----- a block on genesis and a payment -----

  /** A payment to oneself. */
  function Payment(nonce: u64): Tx {
    Tx(ALICE, ALICE, 1, 0, nonce, 0, Some(seq(PUBLIC_KEY_SIZE, i => 0)), Some([]))
  }

  /** The first block on genesis, paying its miner this much. */
  function FirstBlock(p: Params, amount: u64): Block
    requires p.genesisTime < TWO63 - 1
  {
    var cb := Tx(COINBASE_ADDRESS, ALICE, amount, 0, 1, 0, None, None);
    var prev := 2 + Code(HeaderNumbers(Genesis(p)));
    Block(1, prev, p.genesisTime + 1, NextDifficulty(p, Some(Genesis(p)), AnchorOf(p, [Root(p)])), ALICE, 0,
          2 * Code(TxNumbers(cb)) + 1, 0, [cb])
  }

  function Root(p: Params): Entry {
    Entry(Genesis(p), 2 + Code(HeaderNumbers(Genesis(p))), 0)
  }

  lemma DifficultyPositive(p: Params, tip: Block, anchor: Option<Block>)
    requires tip.difficulty > 0
    ensures NextDifficulty(p, Some(tip), anchor) > 0
  {
    hide Expected, WrapI64, Quotient, WrapU64;
  }

  lemma TargetAboveOne(difficulty: u64)
    ensures Target(difficulty) > 1
  {
    var d: nat := if difficulty == 0 then 1 else difficulty;
    QuotientAtLeast(MAX_TARGET, d, 2);
  }

  /** With such digests a block follows the rules on genesis, whatever it pays its miner, and payments verify. */
  lemma RulesCanBeMet(p: Params, amount: u64)
    requires p.maxTxsPerBlock >= 1 && p.genesisTime < TWO63 - 1
    ensures var b := FirstBlock(p, amount);
            var c := Lucky(b);
            && IdealHashes(c) && ChainOk(c, p, [Root(p)]) && FollowsRules(c, p, [Root(p)], b)
            && BlockHash(c, b) == 1 && forall nonce :: Verify(c, Payment(nonce)).None?
  {
    hide Code, HeaderNumbers, TxNumbers, NextDifficulty, AnchorOf, Target;
    var b := FirstBlock(p, amount);
    var c := Lucky(b);
    hide IdealHashes;
    IdealHashesExist(b);
    DifficultyPositive(p, Genesis(p), AnchorOf(p, [Root(p)]));
    TargetAboveOne(b.difficulty);
    assert Genesis(p).(txs := []) == Genesis(p) && Genesis(p).height != b.(txs := []).height;
    assert b.(txs := []).txs == [];
    OnlyCoinbase(c, b.txs[0]);
    assert b.txs[1..] == [];
  }

  lemma OnlyCoinbase(c: Crypto, t: Tx)
    ensures MerkleRoot(c, [t]) == c.txHash(t)
  {
    RepeatedOnly(c, t);
  }

  /** Paid the right amount its state is valid. */
  lemma StateCanBeValid(p: Params)
    requires p.maxTxsPerBlock >= 1 && p.genesisTime < TWO63 - 1 && p.halvingInterval > 0 && RewardAt(p, 1) > 0
    ensures var b := FirstBlock(p, RewardAt(p, 1));
            ApplyBlock(Lucky(b), p, map[], b).Ok?
  {
    hide Code, HeaderNumbers, TxNumbers, NextDifficulty, AnchorOf, RewardAt;
    var b := FirstBlock(p, RewardAt(p, 1));
    assert b.txs[1..] == [];
  }

  // ----- inputs at which properties fail -----

  /** A block that pays its miner one too much is accepted on a node at genesis, beats its tip and is
      then not in the tree. */
  lemma AcceptedThenRejected(p: Params, now: i64, u: Blocks)
    requires p.maxTxsPerBlock >= 1 && p.genesisTime < TWO63 - 1 && p.halvingInterval > 0 && RewardAt(p, 1) < TWO64 - 1
    ensures var b := FirstBlock(p, RewardAt(p, 1) + 1);
            var c := Lucky(b);
            var t := FirstStored(c, Genesis(p));
            && Linked(t) && b.prevHash in t
            && (ClockAllows(p, b, now) ==> Verdict(c, p, t, {}, PathOrNothing(t, b.prevHash), b, now).None?)
            && (KeptByMerit(c, p, t, Root(p), b, u) ==> BlockHash(c, b) !in u)
  {
    hide Code, HeaderNumbers, FirstBlock, RewardAt, Verdict, KeptByMerit, Linked, BlockHash, FirstStored, PathOrNothing;
    var b := FirstBlock(p, RewardAt(p, 1) + 1);
    FirstBlockHeader(p, RewardAt(p, 1) + 1);
    RootStored(p, b);
    ChecksPass(p, RewardAt(p, 1) + 1, now);
    NotKept(p, u);
  }

  lemma FirstBlockHeader(p: Params, amount: u64)
    requires p.genesisTime < TWO63 - 1
    ensures var b := FirstBlock(p, amount);
            b.height == 1 && b.prevHash == 2 + Code(HeaderNumbers(Genesis(p))) && b.difficulty > 0
  {
    hide Code, HeaderNumbers, TxNumbers, NextDifficulty, AnchorOf;
    DifficultyPositive(p, Genesis(p), AnchorOf(p, [Root(p)]));
  }

  lemma ChecksPass(p: Params, amount: u64, now: i64)
    requires p.maxTxsPerBlock >= 1 && p.genesisTime < TWO63 - 1
    ensures var b := FirstBlock(p, amount);
            var c := Lucky(b);
            var t := map[b.prevHash := Root(p)];
            Linked(t) && Path(t, b.prevHash) == [Root(p)] &&
            (ClockAllows(p, b, now) ==> Verdict(c, p, t, {}, PathOrNothing(t, b.prevHash), b, now).None?)
  {
    hide Code, HeaderNumbers, FirstBlock, FollowsRules, ClockAllows, CheckBlock, Linked, Path, Lucky, IdealHashes,
         ChainOk;
    var b := FirstBlock(p, amount);
    FirstBlockHeader(p, amount);
    RootStored(p, b);
    RulesCanBeMet(p, amount);
    CheckBlockMeaning(Lucky(b), p, [Root(p)], b, now);
  }

  lemma NotKept(p: Params, u: Blocks)
    requires p.maxTxsPerBlock >= 1 && p.genesisTime < TWO63 - 1 && p.halvingInterval > 0 && RewardAt(p, 1) < TWO64 - 1
    ensures var b := FirstBlock(p, RewardAt(p, 1) + 1);
            var c := Lucky(b);
            var t := map[b.prevHash := Root(p)];
            Linked(t) && (KeptByMerit(c, p, t, Root(p), b, u) ==> BlockHash(c, b) !in u)
  {
    hide Code, HeaderNumbers, FirstBlock, RewardAt, Linked, Path, Lucky, BlockHash, ApplyBlock;
    var b := FirstBlock(p, RewardAt(p, 1) + 1);
    var c := Lucky(b);
    FirstBlockHeader(p, RewardAt(p, 1) + 1);
    RootStored(p, b);
    WrongAmount(c, p, b);
    RootReplays(c, p);
    var e := EntryFor(c, Root(p), b);
    assert ([Root(p)] + [e])[..1] == [Root(p)];
  }

  lemma RootStored(p: Params, b: Block)
    requires b.height == 1 && b.prevHash == 2 + Code(HeaderNumbers(Genesis(p)))
    ensures var t := FirstStored(Lucky(b), Genesis(p));
            && Linked(t) && t == map[b.prevHash := Root(p)] && Path(t, b.prevHash) == [Root(p)]
  {
    hide Code, HeaderNumbers;
    var t := FirstStored(Lucky(b), Genesis(p));
    assert Genesis(p).(txs := []) == Genesis(p) && Genesis(p).height != b.(txs := []).height;
    forall h | h in t ensures LinkedAt(t, h) {}
  }

  lemma RootReplays(c: Crypto, p: Params)
    requires p.halvingInterval > 0
    ensures Replay(c, p, [Root(p)]) == Ok(map[])
  {
    hide Code, HeaderNumbers;
    assert [Root(p)][..0] == [];
  }

  lemma WrongAmount(c: Crypto, p: Params, b: Block)
    requires p.halvingInterval > 0 && RewardAt(p, 1) < TWO64 - 1 && p.genesisTime < TWO63 - 1
    requires b == FirstBlock(p, RewardAt(p, 1) + 1)
    ensures ApplyBlock(c, p, map[], b).Err?
  {
    hide Code, HeaderNumbers, TxNumbers, NextDifficulty, AnchorOf, RewardAt;
    assert b.txs[1..] == [];
  }

  /** The ids of the first k payments, and the table that holds them. */
  function PaymentIds(c: Crypto, k: nat): (order: seq<Hash>)
    requires k <= TWO64
    ensures |order| == k
  {
    if k == 0 then [] else PaymentIds(c, k - 1) + [c.txHash(Payment(k - 1))]
  }

  function PaymentTable(c: Crypto, k: nat): map<Hash, Tx>
    requires k <= TWO64
  {
    if k == 0 then map[] else PaymentTable(c, k - 1)[c.txHash(Payment(k - 1)) := Payment(k - 1)]
  }

  lemma PaymentApplies(m: Accounts, nonce: u64)
    requires Get(m, ALICE).nonce == nonce && Get(m, ALICE).balance > 0 && nonce <= MAX_MEMPOOL
    ensures ApplyTx(m, Payment(nonce)).Ok?
    ensures Get(ApplyTx(m, Payment(nonce)).value, ALICE) == Account(Get(m, ALICE).balance, nonce + 1)
  {
  }

  lemma PaymentVerifies(chosen: Block, nonce: u64)
    ensures Verify(Lucky(chosen), Payment(nonce)).None?
  {
    hide Code, TxNumbers, HeaderCode;
  }

  /** Payments fill a mempool up to its cap for whoever has anything to spend. */
  lemma {:induction false} PoolFills(chosen: Block, m: Accounts, k: nat)
    requires Get(m, ALICE).nonce == 0 && Get(m, ALICE).balance > 0 && k <= MAX_MEMPOOL
    ensures var c := Lucky(chosen);
            && PoolOk(c, m, PaymentIds(c, k), PaymentTable(c, k)) && |PaymentTable(c, k)| == k
            && Get(ApplyAll(m, PoolOf(PaymentIds(c, k), PaymentTable(c, k))).value, ALICE)
               == Account(Get(m, ALICE).balance, k)
  {
    hide Lucky, ApplyTx, Verify, IdealHashes, IdealRoots, EntriesOk, Indexed, PoolOf, TxIdsDistinct;
    var c := Lucky(chosen);
    if k == 0 {
      NothingFilled(c, m);
    } else {
      PoolFills(chosen, m, k - 1);
      IdsApart(chosen);
      PaymentVerifies(chosen, k - 1);
      var order, table := PaymentIds(c, k - 1), PaymentTable(c, k - 1);
      PaymentApplies(ApplyAll(m, PoolOf(order, table)).value, k - 1);
      PoolGrows(c, m, order, table, Payment(k - 1));
    }
  }

  lemma NothingFilled(c: Crypto, m: Accounts)
    ensures PoolOk(c, m, [], map[]) && ApplyAll(m, PoolOf([], map[])) == Ok(m)
  {
  }

  lemma IdsApart(chosen: Block)
    ensures TxIdsDistinct(Lucky(chosen))
  {
    hide Lucky, IdealRoots;
    IdealHashesExist(chosen);
  }

  lemma NothingPaid(c: Crypto)
    ensures 0 < MAX_MEMPOOL < SEEN_RESET_AT < TWO64
    ensures PaymentIds(c, 0) == [] && PaymentTable(c, 0) == map[]
  {
  }

  /** The next payment is new, verifies, and applies after the first k. */
  lemma NextPayment(chosen: Block, m: Accounts, k: nat)
    requires Get(m, ALICE).nonce == 0 && Get(m, ALICE).balance > 0 && k <= MAX_MEMPOOL
    ensures var c, t := Lucky(chosen), Payment(k);
            var order, table := PaymentIds(c, k), PaymentTable(c, k);
            && PoolOk(c, m, order, table) && |table| == k && c.txHash(t) !in table
            && (k < MAX_MEMPOOL ==> PaymentIds(c, k + 1) == order + [c.txHash(t)]
                                    && PaymentTable(c, k + 1) == table[c.txHash(t) := t])
            && Verify(c, t).None?
            && var after := ApplyAll(m, PoolOf(order, table)).value;
               ApplyTx(after, t).Ok? && !Same(ApplyTx(after, t).value, after)
  {
    hide Lucky, EntriesOk, Indexed, PoolOf, ApplyTx, ApplyAll, Verify, TxIdsDistinct;
    var c, t := Lucky(chosen), Payment(k);
    var order, table := PaymentIds(c, k), PaymentTable(c, k);
    PoolFills(chosen, m, k);
    var after := ApplyAll(m, PoolOf(order, table)).value;
    PaymentVerifies(chosen, k);
    PaymentApplies(after, k);
    NonceMoved(after, t);
    IdsApart(chosen);
    NewTxIsNew(c, m, order, table, t);
  }

  /** A full mempool refuses a new payment that verifies and applies after everything pending, and the cached
      pending state that payment was written to is then not what the mempool leaves. */
  lemma FullPoolSpoilsCache(chosen: Block, m: Accounts)
    requires Get(m, ALICE).nonce == 0 && Get(m, ALICE).balance > 0
    ensures var c, t := Lucky(chosen), Payment(MAX_MEMPOOL);
            var order, table := PaymentIds(c, MAX_MEMPOOL), PaymentTable(c, MAX_MEMPOOL);
            && PoolOk(c, m, order, table) && |table| == MAX_MEMPOOL && c.txHash(t) !in table
            && Verify(c, t).None?
            && var after := ApplyAll(m, PoolOf(order, table)).value;
               ApplyTx(after, t).Ok? && !Same(ApplyTx(after, t).value, after)
  {
    hide Lucky, PoolOk, PoolOf, ApplyTx, ApplyAll, Verify, PaymentIds, PaymentTable, Same;
    NextPayment(chosen, m, MAX_MEMPOOL);
  }

  /** Two payments of one sender made at the same time and mined in two blocks: once both blocks are rolled back
      the newer one is tried first, which its nonce does not allow, and only the older one is kept, though one
      after the other both apply. */
  lemma TiedPaymentLost(chosen: Block, m: Accounts, root: Entry, e: Entry, f: Entry, x: Tx, y: Tx)
    requires Get(m, ALICE).nonce == 0 && Get(m, ALICE).balance > 0 && x.from == "" && y.from == ""
    requires e.block.txs == [x, Payment(0)] && f.block.txs == [y, Payment(1)]
    ensures ApplyAll(m, [Payment(0), Payment(1)]).Ok?
    ensures var rolledBack := RolledBack([root, e, f], 1);
            && rolledBack == [y, Payment(1), x, Payment(0)]
            && Rebuilt(Lucky(chosen), m, rolledBack, {}).kept == [Payment(0)]
  {
    hide Lucky, ApplyTx, Get, Verify, Rebuilt, Distinct, Filter, Sort, Greedy, Payment;
    var c := Lucky(chosen);
    BothApply(m);
    TwoBlocks(root, e, f);
    PaymentsMayStay(chosen, x, y);
    PaymentsTied();
    TriedIsSorted(c, [y, Payment(1), x, Payment(0)], {});
    TriedRebuilt(c, m, [y, Payment(1), x, Payment(0)], {});
    OneOfTwoKept(m);
  }

  lemma BothApply(m: Accounts)
    requires Get(m, ALICE).nonce == 0 && Get(m, ALICE).balance > 0
    ensures ApplyAll(m, [Payment(0), Payment(1)]).Ok?
  {
    hide ApplyTx, Get, Payment;
    PaymentApplies(m, 0);
    PaymentApplies(ApplyTx(m, Payment(0)).value, 1);
    var one := [Payment(0)];
    assert one[..|one| - 1] == [] && ApplyAll(m, []) == Ok(m);
    assert ApplyAll(m, one) == ApplyTx(m, Payment(0));
    assert [Payment(0), Payment(1)][..1] == one;
  }

  lemma TwoBlocks(root: Entry, e: Entry, f: Entry)
    ensures RolledBack([root, e, f], 1) == f.block.txs + e.block.txs
  {
    assert [root, e, f] == [root] + [e] + [f];
    NewestBlockFirst([root, e], f, 1);
    NewestBlockFirst([root], e, 1);
    assert [root, e] == [root] + [e];
  }

  lemma PaymentsMayStay(chosen: Block, x: Tx, y: Tx)
    requires x.from == "" && y.from == ""
    ensures MayStay(Lucky(chosen), [y, Payment(1), x, Payment(0)], {}) == [Payment(1), Payment(0)]
  {
    hide Lucky, Verify, MayStay;
    var c := Lucky(chosen);
    PaymentVerifies(chosen, 0);
    PaymentVerifies(chosen, 1);
    IdsApart(chosen);
    var a, b, d := [y], [y, Payment(1)], [y, Payment(1), x];
    assert a == [] + [y] && b == a + [Payment(1)] && d == b + [x];
    assert [y, Payment(1), x, Payment(0)] == d + [Payment(0)];
    MayStayMeaning(c, [], y, {});
    MayStayMeaning(c, a, Payment(1), {});
    MayStayMeaning(c, b, x, {});
    MayStayMeaning(c, d, Payment(0), {});
    assert Payment(0).from == ALICE && Payment(1).from == ALICE && !SameTx(Payment(0), Payment(1));
  }

  lemma PaymentsTied()
    ensures Sort(Earlier(), [Payment(1), Payment(0)]) == [Payment(1), Payment(0)]
  {
    var s := [Payment(1), Payment(0)];
    assert s[..1] == [Payment(1)] && [Payment(1)][..0] == [];
    assert Sort(Earlier(), [Payment(1)]) == [Payment(1)];
  }

  lemma OneOfTwoKept(m: Accounts)
    requires Get(m, ALICE).nonce == 0 && Get(m, ALICE).balance > 0
    ensures Greedy(m, [Payment(1), Payment(0)]).kept == [Payment(0)]
  {
    hide ApplyTx, Get;
    var s := [Payment(1), Payment(0)];
    assert s[..1] == [Payment(1)] && [Payment(1)][..0] == [];
    AppliedNonce(m, Payment(1));
    PaymentApplies(m, 0);
    assert Greedy(m, [Payment(1)]) == Pick([], m);
  }
}
