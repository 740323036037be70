/** Pending transactions as a value: what may be kept, in which order, and why a reorg may
    look back all the way to genesis without changing the outcome. */
module Mempool {
  import opened Basics
  import opened Chain
  import opened Ledger
  import opened Tree
  import opened Nonces
  import opened StableSort

  // ----- accounts that differ only in empty records -----

  ghost predicate Same(m: Accounts, n: Accounts) {
    forall a :: Get(m, a) == Get(n, a)
  }

  lemma SameApplyTx(m: Accounts, n: Accounts, t: Tx)
    requires Same(m, n)
    ensures ApplyTx(m, t).Ok? <==> ApplyTx(n, t).Ok?
    ensures ApplyTx(m, t).Ok? ==> Same(ApplyTx(m, t).value, ApplyTx(n, t).value)
  {
    assert Get(m, t.from) == Get(n, t.from);
    if CheckTx(m, t).None? {
      var d, e := Debit(m, t), Debit(n, t);
      forall a ensures Get(d, a) == Get(e, a) { assert Get(m, a) == Get(n, a); }
      SameCredit(d, e, t.to, t.amount);
    }
  }

  lemma SameCredit(m: Accounts, n: Accounts, to: Address, amount: u64)
    requires Same(m, n)
    ensures Credit(m, to, amount).Ok? <==> Credit(n, to, amount).Ok?
    ensures Credit(m, to, amount).Ok? ==> Same(Credit(m, to, amount).value, Credit(n, to, amount).value)
  {
    assert Get(m, to) == Get(n, to);
    if Credit(m, to, amount).Ok? {
      var d, e := Credit(m, to, amount).value, Credit(n, to, amount).value;
      forall a ensures Get(d, a) == Get(e, a) { assert Get(m, a) == Get(n, a); }
    }
  }

  lemma TouchSame(m: Accounts, a: Address)
    ensures Same(Touch(m, a), m)
  {
  }

  // ----- greedy choice -----

  datatype Pick = Pick(kept: seq<Tx>, accounts: Accounts)

  /** Takes every transaction that applies on top of those already taken. */
  function Greedy(m: Accounts, txs: seq<Tx>): Pick {
    if |txs| == 0 then Pick([], m)
    else
      var before := Greedy(m, txs[..|txs| - 1]);
      var t := txs[|txs| - 1];
      match ApplyTx(before.accounts, t)
      case Err(_) => before
      case Ok(n) => Pick(before.kept + [t], n)
  }

  lemma {:induction false} GreedyApplies(m: Accounts, txs: seq<Tx>)
    ensures ApplyAll(m, Greedy(m, txs).kept) == Ok(Greedy(m, txs).accounts)
    ensures forall t :: t in Greedy(m, txs).kept ==> t in txs
  {
    if |txs| == 0 {
    } else {
      var before := Greedy(m, txs[..|txs| - 1]);
      GreedyApplies(m, txs[..|txs| - 1]);
      hide ApplyTx;
      assert (before.kept + [txs[|txs| - 1]])[..|before.kept|] == before.kept;
    }
  }

  /** Where everything applies nothing is dropped. */
  lemma {:induction false} GreedyKeepsAll(m: Accounts, txs: seq<Tx>)
    requires ApplyAll(m, txs).Ok?
    ensures Greedy(m, txs) == Pick(txs, ApplyAll(m, txs).value)
  {
    hide ApplyTx;
    if |txs| == 0 {
    } else {
      GreedyKeepsAll(m, txs[..|txs| - 1]);
      assert txs == txs[..|txs| - 1] + [txs[|txs| - 1]];
    }
  }

  lemma {:induction false} KeptSorted(less: (Tx, Tx) -> bool, m: Accounts, txs: seq<Tx>)
    requires Sorted(less, txs)
    ensures Sorted(less, Greedy(m, txs).kept)
  {
    hide ApplyTx;
    if |txs| == 0 {
    } else {
      var before := txs[..|txs| - 1];
      KeptSorted(less, m, before);
      GreedyApplies(m, before);
      var kept := Greedy(m, before).kept;
      forall x | x in kept ensures !less(txs[|txs| - 1], x) {
        var i :| 0 <= i < |before| && before[i] == x;
        assert !less(txs[|txs| - 1], txs[i]);
      }
      SortedSnoc(less, kept, txs[|txs| - 1]);
    }
  }

  // ----- the pool: an order of ids and a table -----

  /** The table's transactions in order; ids without an entry are skipped. */
  function PoolOf(order: seq<Hash>, table: map<Hash, Tx>): seq<Tx> {
    if |order| == 0 then []
    else
      var h := order[|order| - 1];
      PoolOf(order[..|order| - 1], table) + if h in table then [table[h]] else []
  }

  ghost predicate EntriesOk(c: Crypto, table: map<Hash, Tx>) {
    forall h :: h in table ==> c.txHash(table[h]) == h && Verify(c, table[h]).None?
  }

  /** The order lists exactly the table's ids, once each. */
  ghost predicate Indexed(order: seq<Hash>, table: map<Hash, Tx>) {
    NoDuplicates(order) && forall h :: h in order <==> h in table
  }

  /** Everything pending is verified and applies, in order, to the given accounts. */
  ghost predicate PoolOk(c: Crypto, m: Accounts, order: seq<Hash>, table: map<Hash, Tx>) {
    && EntriesOk(c, table)
    && Indexed(order, table)
    && ApplyAll(m, PoolOf(order, table)).Ok?
  }

  lemma {:induction false} PoolOfFrame(order: seq<Hash>, s: map<Hash, Tx>, t: map<Hash, Tx>)
    requires forall h :: h in order ==> (h in s <==> h in t) && (h in s ==> s[h] == t[h])
    ensures PoolOf(order, s) == PoolOf(order, t)
  {
    if |order| == 0 {
    } else {
      assert order[|order| - 1] in order;
      PoolOfFrame(order[..|order| - 1], s, t);
    }
  }

  /** Appending a new id with its transaction appends the transaction. */
  lemma PoolAppend(order: seq<Hash>, table: map<Hash, Tx>, h: Hash, t: Tx)
    requires h !in order
    ensures PoolOf(order + [h], table[h := t]) == PoolOf(order, table) + [t]
  {
    assert (order + [h])[..|order|] == order;
    PoolOfFrame(order, table, table[h := t]);
  }

  lemma {:induction false} PoolMembers(order: seq<Hash>, table: map<Hash, Tx>, t: Tx)
    ensures t in PoolOf(order, table) <==> exists h :: h in order && h in table && table[h] == t
    ensures |PoolOf(order, table)| <= |order|
  {
    if |order| == 0 {
    } else {
      var h := order[|order| - 1];
      PoolMembers(order[..|order| - 1], table, t);
      assert order == order[..|order| - 1] + [h];
    }
  }

  lemma PoolNoCoinbase(m: Accounts, order: seq<Hash>, table: map<Hash, Tx>, h: Hash)
    requires Indexed(order, table) && ApplyAll(m, PoolOf(order, table)).Ok? && h in table
    ensures !IsCoinbase(table[h])
  {
    hide ApplyAll, PoolOf;
    PoolMembers(order, table, table[h]);
    var i :| 0 <= i < |PoolOf(order, table)| && PoolOf(order, table)[i] == table[h];
    NonceAt(m, PoolOf(order, table), i);
  }

  /** A transaction that applies after the pool is not in the pool yet, unless its ids lie. */
  lemma NewTxIsNew(c: Crypto, m: Accounts, order: seq<Hash>, table: map<Hash, Tx>, t: Tx)
    requires TxIdsDistinct(c) && PoolOk(c, m, order, table) && |order| < TWO64
    requires t.nonce == Get(ApplyAll(m, PoolOf(order, table)).value, t.from).nonce
    ensures c.txHash(t) !in table
  {
    var h := c.txHash(t);
    if h in table {
      var pool := PoolOf(order, table);
      var u := table[h];
      PoolMembers(order, table, u);
      assert SameTx(t, u);
      hide PoolOf, EntriesOk, Verify;
      NoncesMoveOn(m, pool, u);
    }
  }

  /** After a run none of its senders is back at the nonce of one of its transactions. */
  lemma NoncesMoveOn(m: Accounts, txs: seq<Tx>, u: Tx)
    requires u in txs && ApplyAll(m, txs).Ok? && |txs| < TWO64
    ensures Get(ApplyAll(m, txs).value, u.from).nonce != u.nonce
  {
    hide ApplyAll, Get, Count, WrapU64;
    var i :| 0 <= i < |txs| && txs[i] == u;
    FinalNonce(m, txs, u.from);
    NonceAt(m, txs, i);
    CountPrefix(u.from, txs, i);
    WrapDistinct(Get(m, u.from).nonce + Count(u.from, txs[..i]), Get(m, u.from).nonce + Count(u.from, txs));
  }

  lemma WrapDistinct(i: nat, j: nat)
    requires i < j < i + TWO64
    ensures WrapU64(i) != WrapU64(j)
  {
  }

  // ----- rebuilding after a reorg -----

  /** First occurrences by id, without coinbases. */
  function Distinct(c: Crypto, txs: seq<Tx>): seq<Tx> {
    if |txs| == 0 then []
    else
      var before := Distinct(c, txs[..|txs| - 1]);
      var t := txs[|txs| - 1];
      if IsCoinbase(t) || Listed(c, before, c.txHash(t)) then before else before + [t]
  }

  predicate Listed(c: Crypto, txs: seq<Tx>, h: Hash) {
    exists t :: t in txs && c.txHash(t) == h
  }

  function Earlier(): (Tx, Tx) -> bool {
    (s: Tx, t: Tx) => s.time < t.time
  }

  lemma EarlierIsWeakOrder()
    ensures WeakOrder(Earlier())
  {
  }

  /** May be kept: not confirmed, and intrinsically valid. */
  function Eligible(c: Crypto, confirmed: set<Hash>): Tx -> bool {
    (t: Tx) => c.txHash(t) !in confirmed && Verify(c, t).None?
  }

  function InTimeOrder(c: Crypto, txs: seq<Tx>): seq<Tx> {
    Sort(Earlier(), Distinct(c, txs))
  }

  /** The rebuilt pool: the greedy valid subsequence of the eligible candidates in stable time order. */
  function Rebuilt(c: Crypto, m: Accounts, candidates: seq<Tx>, confirmed: set<Hash>): Pick {
    Greedy(m, Filter(Eligible(c, confirmed), InTimeOrder(c, candidates)))
  }

  lemma {:induction false} DistinctTail(c: Crypto, front: seq<Tx>, tail: seq<Tx>, keep: Tx -> bool)
    requires forall t :: t in tail ==> !keep(t)
    ensures Filter(keep, Distinct(c, front + tail)) == Filter(keep, Distinct(c, front))
  {
    if |tail| == 0 {
      assert front + tail == front;
    } else {
      var all := front + tail;
      assert all[..|all| - 1] == front + tail[..|tail| - 1];
      DistinctTail(c, front, tail[..|tail| - 1], keep);
      DistinctStep(c, front + tail[..|tail| - 1], tail[|tail| - 1], keep);
      assert all == front + tail[..|tail| - 1] + [tail[|tail| - 1]];
    }
  }

  lemma DistinctStep(c: Crypto, txs: seq<Tx>, t: Tx, keep: Tx -> bool)
    requires !keep(t)
    ensures Filter(keep, Distinct(c, txs + [t])) == Filter(keep, Distinct(c, txs))
  {
    assert (txs + [t])[..|txs|] == txs;
    FilterConcat(keep, Distinct(c, txs), [t]);
    FilterOne(keep, t);
  }

  /** Where the fork is taken to be does not matter: rolling back shared blocks as well only adds
      candidates that are confirmed on the new chain, and those are filtered out. */
  lemma ForkDoesNotMatter(c: Crypto, m: Accounts, pool: seq<Tx>, abandoned: seq<Tx>, shared: seq<Tx>,
                          confirmed: set<Hash>)
    requires forall t :: t in shared ==> c.txHash(t) in confirmed
    ensures Rebuilt(c, m, pool + (abandoned + shared), confirmed) == Rebuilt(c, m, pool + abandoned, confirmed)
  {
    var keep := Eligible(c, confirmed);
    EarlierIsWeakOrder();
    assert pool + (abandoned + shared) == (pool + abandoned) + shared;
    DistinctTail(c, pool + abandoned, shared, keep);
    FilterSort(Earlier(), keep, Distinct(c, pool + abandoned));
    FilterSort(Earlier(), keep, Distinct(c, (pool + abandoned) + shared));
  }

  /** Ids of everything in the blocks of a chain, coinbases included. */
  ghost function ConfirmedIds(c: Crypto, path: seq<Entry>): set<Hash> {
    set e, t | e in path && t in e.block.txs :: c.txHash(t)
  }

  /** Ids of everything in the blocks above genesis; what genesis carries is never applied. */
  ghost function ConfirmedAbove(c: Crypto, path: seq<Entry>): set<Hash> {
    set e, t | e in path && e.block.height > 0 && t in e.block.txs :: c.txHash(t)
  }

  /** The transaction cannot apply during the sender's next few: it is a coinbase or its sender is past
      its nonce and does not come round to it again. */
  predicate Stale(m: Accounts, t: Tx, few: nat) {
    IsCoinbase(t) || (t.nonce < Get(m, t.from).nonce && Get(m, t.from).nonce + few <= TWO64)
  }

  lemma {:induction false} GreedyNonces(m: Accounts, txs: seq<Tx>, a: Address)
    requires Get(m, a).nonce + Count(a, txs) < TWO64
    ensures Get(m, a).nonce <= Get(Greedy(m, txs).accounts, a).nonce <= Get(m, a).nonce + Count(a, txs)
  {
    hide ApplyTx, Get, WrapU64;
    if |txs| == 0 {
    } else {
      var before := Greedy(m, txs[..|txs| - 1]);
      GreedyNonces(m, txs[..|txs| - 1], a);
      if ApplyTx(before.accounts, txs[|txs| - 1]).Ok? {
        TxNonces(before.accounts, txs[|txs| - 1], a);
        if txs[|txs| - 1].from == a { WrapSmall(Get(before.accounts, a).nonce + 1); }
      }
    }
  }

  /** Dropping stale transactions beforehand changes nothing. */
  lemma {:induction false} GreedySkipsStale(m: Accounts, txs: seq<Tx>, keep: Tx -> bool)
    requires forall t :: t in txs && !keep(t) ==> Stale(m, t, Count(t.from, txs))
    ensures Greedy(m, Filter(keep, txs)) == Greedy(m, txs)
  {
    if |txs| == 0 {
    } else {
      var before, t := txs[..|txs| - 1], txs[|txs| - 1];
      assert txs[|txs| - 1] in txs;
      GreedySkipsStale(m, before, keep);
      var kept := Filter(keep, before);
      if keep(t) {
        assert (kept + [t])[..|kept|] == kept;
      } else {
        assert Filter(keep, txs) == kept;
        if !IsCoinbase(t) { GreedyNonces(m, before, t.from); }
        assert ApplyTx(Greedy(m, before).accounts, t).Err?;
      }
    }
  }

  lemma {:induction false} ChainTxsFrom(path: seq<Entry>, e: Entry, t: Tx) returns (i: nat)
    requires e in path && e.block.height > 0 && t in Regular(e.block)
    ensures i < |ChainTxs(path)| && ChainTxs(path)[i] == t
  {
    hide Regular;
    var last := path[|path| - 1];
    var before := path[..|path| - 1];
    if e == last {
      var j :| 0 <= j < |Regular(last.block)| && Regular(last.block)[j] == t;
      i := |ChainTxs(before)| + j;
    } else {
      i := ChainTxsFrom(before, e, t);
    }
  }

  /** Blocks of a valid chain above genesis start with their coinbase. */
  ghost predicate WellFormedChain(path: seq<Entry>) {
    forall e :: e in path && e.block.height > 0 ==> |e.block.txs| > 0 && IsCoinbase(e.block.txs[0])
  }

  /** Anything carrying a confirmed id is stale for as long as its sender's nonces last. */
  lemma ConfirmedIdIsStale(c: Crypto, p: Params, path: seq<Entry>, t: Tx, few: nat)
    requires p.halvingInterval > 0 && TxIdsDistinct(c) && WellFormedChain(path)
    requires Replay(c, p, path).Ok? && few > 0 && Count(t.from, ChainTxs(path)) + few <= TWO64
    requires c.txHash(t) in ConfirmedAbove(c, path)
    ensures Stale(Replay(c, p, path).value, t, few)
  {
    var e, u :| e in path && e.block.height > 0 && u in e.block.txs && c.txHash(u) == c.txHash(t);
    assert SameTx(u, t);
    if !IsCoinbase(t) {
      assert u in Regular(e.block) by {
        var j :| 0 <= j < |e.block.txs| && e.block.txs[j] == u;
        assert j > 0;
        assert e.block.txs[1..][j - 1] == u;
      }
      var i := ChainTxsFrom(path, e, u);
      ConfirmedIsStale(c, p, path, i);
    }
  }

  /** The confirmed-set filter only saves work: as long as no sender can come round to a used nonce the same
      pool results without it. An id that genesis carries is filtered out too, hence no such id. */
  lemma FilterDoesNotMatter(c: Crypto, p: Params, path: seq<Entry>, candidates: seq<Tx>)
    requires p.halvingInterval > 0 && TxIdsDistinct(c) && WellFormedChain(path)
    requires Replay(c, p, path).Ok? && ConfirmedIds(c, path) == ConfirmedAbove(c, path)
    requires forall a :: Count(a, ChainTxs(path)) + Count(a, candidates) <= TWO64
    ensures Rebuilt(c, Replay(c, p, path).value, candidates, ConfirmedIds(c, path))
         == Rebuilt(c, Replay(c, p, path).value, candidates, {})
  {
    var m, confirmed := Replay(c, p, path).value, ConfirmedIds(c, path);
    var v := Filter(Eligible(c, {}), InTimeOrder(c, candidates));
    forall t | t in v && c.txHash(t) in confirmed ensures Stale(m, t, Count(t.from, v)) {
      CandidatesFewer(c, candidates, t.from);
      CountMember(v, t);
      ConfirmedIdIsStale(c, p, path, t, Count(t.from, v));
    }
    hide *;
    StaleFilter(c, m, candidates, confirmed);
  }

  lemma {:induction false} CountMember(txs: seq<Tx>, t: Tx)
    requires t in txs
    ensures Count(t.from, txs) > 0
  {
    if txs[|txs| - 1] == t {
    } else {
      CountMember(txs[..|txs| - 1], t);
    }
  }

  /** No sender has more transactions among the eligible candidates than were collected. */
  lemma CandidatesFewer(c: Crypto, candidates: seq<Tx>, a: Address)
    ensures Count(a, Filter(Eligible(c, {}), InTimeOrder(c, candidates))) <= Count(a, candidates)
  {
    CountDistinct(c, candidates, a);
    CountSort(Earlier(), Distinct(c, candidates), a);
    CountFilter(Eligible(c, {}), InTimeOrder(c, candidates), a);
  }

  lemma {:induction false} CountDistinct(c: Crypto, txs: seq<Tx>, a: Address)
    ensures Count(a, Distinct(c, txs)) <= Count(a, txs)
  {
    if |txs| == 0 {
    } else {
      var before, t := txs[..|txs| - 1], txs[|txs| - 1];
      CountDistinct(c, before, a);
      CountSnoc(a, Distinct(c, before), t);
    }
  }

  lemma CountSnoc(a: Address, txs: seq<Tx>, t: Tx)
    ensures Count(a, txs + [t]) == Count(a, txs) + if t.from == a then 1 else 0
  {
    assert (txs + [t])[..|txs|] == txs;
  }

  lemma {:induction false} CountInsert(less: (Tx, Tx) -> bool, txs: seq<Tx>, t: Tx, a: Address)
    ensures Count(a, Insert(less, txs, t)) == Count(a, txs) + if t.from == a then 1 else 0
  {
    if |txs| == 0 {
      CountSnoc(a, txs, t);
    } else {
      var before, last := txs[..|txs| - 1], txs[|txs| - 1];
      CountInsert(less, before, t, a);
      CountSnoc(a, Insert(less, before, t), last);
      CountSnoc(a, txs, t);
    }
  }

  lemma {:induction false} CountSort(less: (Tx, Tx) -> bool, txs: seq<Tx>, a: Address)
    ensures Count(a, Sort(less, txs)) == Count(a, txs)
  {
    if |txs| == 0 {
    } else {
      var before := txs[..|txs| - 1];
      CountSort(less, before, a);
      CountInsert(less, Sort(less, before), txs[|txs| - 1], a);
    }
  }

  lemma {:induction false} CountFilter(keep: Tx -> bool, txs: seq<Tx>, a: Address)
    ensures Count(a, Filter(keep, txs)) <= Count(a, txs)
  {
    if |txs| == 0 {
    } else {
      var before, t := txs[..|txs| - 1], txs[|txs| - 1];
      CountFilter(keep, before, a);
      FilterSnoc(keep, before, t);
      assert txs == before + [t];
      CountSnoc(a, Filter(keep, before), t);
    }
  }

  lemma StaleFilter(c: Crypto, m: Accounts, candidates: seq<Tx>, confirmed: set<Hash>)
    requires var v := Filter(Eligible(c, {}), InTimeOrder(c, candidates));
             forall t :: t in v && c.txHash(t) in confirmed ==> Stale(m, t, Count(t.from, v))
    ensures Rebuilt(c, m, candidates, confirmed) == Rebuilt(c, m, candidates, {})
  {
    EligibleSplit(c, confirmed, InTimeOrder(c, candidates));
    hide Verify, InTimeOrder, Greedy, Stale, Filter, Eligible;
    GreedySkipsStale(m, Filter(Eligible(c, {}), InTimeOrder(c, candidates)), Open(c, confirmed));
  }

  function Open(c: Crypto, confirmed: set<Hash>): Tx -> bool {
    (t: Tx) => c.txHash(t) !in confirmed
  }

  lemma EligibleSplit(c: Crypto, confirmed: set<Hash>, s: seq<Tx>)
    ensures Filter(Eligible(c, confirmed), s) == Filter(Open(c, confirmed), Filter(Eligible(c, {}), s))
  {
    var open, verified := Open(c, confirmed), Eligible(c, {});
    FilterAgain(open, verified, s);
    FilterSame(Both(open, verified), Eligible(c, confirmed), s);
  }

  lemma {:induction false} FilterSame<T>(f: T -> bool, g: T -> bool, s: seq<T>)
    requires forall t :: t in s ==> f(t) == g(t)
    ensures Filter(f, s) == Filter(g, s)
  {
    if |s| == 0 {
    } else {
      FilterSame(f, g, s[..|s| - 1]);
      assert s[|s| - 1] in s;
    }
  }

  /** Something pending can only carry an id confirmed on the chain it would extend if its sender's
      transactions, confirmed and pending, are more than 2^64. */
  lemma PoolUnconfirmed(c: Crypto, p: Params, path: seq<Entry>, order: seq<Hash>, table: map<Hash, Tx>, h: Hash)
    requires p.halvingInterval > 0 && TxIdsDistinct(c) && WellFormedChain(path) && Replay(c, p, path).Ok?
    requires PoolOk(c, Replay(c, p, path).value, order, table) && h in table
    ensures h in ConfirmedAbove(c, path) ==>
              Count(table[h].from, ChainTxs(path)) + Count(table[h].from, PoolOf(order, table)) > TWO64
  {
    var m, t, pool := Replay(c, p, path).value, table[h], PoolOf(order, table);
    if h in ConfirmedAbove(c, path) && Count(t.from, ChainTxs(path)) + Count(t.from, pool) <= TWO64 {
      PoolMembers(order, table, t);
      CountMember(pool, t);
      ConfirmedIdIsStale(c, p, path, t, Count(t.from, pool));
      hide *;
      NotStaleInRun(m, pool, t, Count(t.from, pool));
    }
  }

  lemma NotStaleInRun(m: Accounts, txs: seq<Tx>, t: Tx, few: nat)
    requires t in txs && ApplyAll(m, txs).Ok? && Count(t.from, txs) <= few
    ensures !Stale(m, t, few)
  {
    hide ApplyAll, Get, Count, WrapU64;
    var i :| 0 <= i < |txs| && txs[i] == t;
    NonceAt(m, txs, i);
    CountPrefix(t.from, txs, i);
    if Get(m, t.from).nonce + few <= TWO64 {
      WrapSmall(Get(m, t.from).nonce + Count(t.from, txs[..i]));
    }
  }

  // ----- one step of each loop -----

  lemma PoolStep(order: seq<Hash>, table: map<Hash, Tx>, i: nat)
    requires i < |order|
    ensures PoolOf(order[..i + 1], table)
         == PoolOf(order[..i], table) + if order[i] in table then [table[order[i]]] else []
  {
    assert order[..i + 1][..i] == order[..i];
  }

  lemma GreedyStep(m: Accounts, txs: seq<Tx>, t: Tx)
    ensures Greedy(m, txs + [t])
         == var before := Greedy(m, txs);
            if ApplyTx(before.accounts, t).Ok? then Pick(before.kept + [t], ApplyTx(before.accounts, t).value)
            else before
  {
    hide ApplyTx;
    assert (txs + [t])[..|txs|] == txs;
  }

  lemma FilterStep(keep: Tx -> bool, txs: seq<Tx>, i: nat)
    requires i < |txs|
    ensures Filter(keep, txs[..i + 1]) == Filter(keep, txs[..i]) + if keep(txs[i]) then [txs[i]] else []
  {
    assert txs[..i + 1][..i] == txs[..i];
  }

  /** What a loop has kept so far: the greedy choice from the transactions seen, with the working
      accounts equal to its result up to empty records. */
  ghost predicate Kept(c: Crypto, m: Accounts, seen: seq<Tx>, order: seq<Hash>, table: map<Hash, Tx>, work: Accounts) {
    && PoolOf(order, table) == Greedy(m, seen).kept
    && Same(work, Greedy(m, seen).accounts)
    && Indexed(order, table)
    && EntriesOk(c, table)
  }

  lemma KeptTake(c: Crypto, m: Accounts, seen: seq<Tx>, order: seq<Hash>, table: map<Hash, Tx>, work: Accounts,
                 t: Tx, h: Hash)
    requires Kept(c, m, seen, order, table, work) && h !in table && c.txHash(t) == h && Verify(c, t).None?
    requires ApplyTx(work, t).Ok?
    ensures Kept(c, m, seen + [t], order + [h], table[h := t], ApplyTx(work, t).value)
  {
    hide ApplyTx, Verify, PoolOf, Same, Greedy;
    SameApplyTx(work, Greedy(m, seen).accounts, t);
    GreedyStep(m, seen, t);
    PoolAppend(order, table, h, t);
  }

  lemma KeptDrop(c: Crypto, m: Accounts, seen: seq<Tx>, order: seq<Hash>, table: map<Hash, Tx>, work: Accounts,
                 after: Accounts, t: Tx)
    requires Kept(c, m, seen, order, table, work) && ApplyTx(work, t).Err? && Same(after, work)
    ensures Kept(c, m, seen + [t], order, table, after)
  {
    hide ApplyTx, Verify, PoolOf, Same, Greedy;
    SameApplyTx(work, Greedy(m, seen).accounts, t);
    GreedyStep(m, seen, t);
    SameTrans(after, work, Greedy(m, seen).accounts);
  }

  lemma SameTrans(l: Accounts, m: Accounts, n: Accounts)
    requires Same(l, m) && Same(m, n)
    ensures Same(l, n)
  {
    forall a ensures Get(l, a) == Get(n, a) {
      assert Get(l, a) == Get(m, a);
    }
  }

  lemma KeptIsPool(c: Crypto, m: Accounts, seen: seq<Tx>, order: seq<Hash>, table: map<Hash, Tx>, work: Accounts)
    requires Kept(c, m, seen, order, table, work)
    ensures PoolOk(c, m, order, table)
    ensures Same(work, ApplyAll(m, PoolOf(order, table)).value)
  {
    GreedyApplies(m, seen);
  }

  lemma KeptChoice(c: Crypto, m: Accounts, seen: seq<Tx>, order: seq<Hash>, table: map<Hash, Tx>, work: Accounts)
    requires Kept(c, m, seen, order, table, work)
    ensures PoolOf(order, table) == Greedy(m, seen).kept
  {
  }

  /** No two transactions of the sequence share an id. */
  ghost predicate IdsDiffer(c: Crypto, txs: seq<Tx>) {
    forall i, j :: 0 <= i < j < |txs| ==> c.txHash(txs[i]) != c.txHash(txs[j])
  }

  lemma {:induction false} DistinctDiffer(c: Crypto, txs: seq<Tx>)
    ensures IdsDiffer(c, Distinct(c, txs))
  {
    if |txs| == 0 {
    } else {
      DistinctDiffer(c, txs[..|txs| - 1]);
    }
  }

  lemma {:induction false} InsertDiffer(c: Crypto, s: seq<Tx>, x: Tx)
    requires IdsDiffer(c, s) && !Listed(c, s, c.txHash(x))
    ensures IdsDiffer(c, Insert(Earlier(), s, x))
  {
    if |s| == 0 || !Earlier()(x, s[|s| - 1]) {
    } else {
      var init, last := s[..|s| - 1], s[|s| - 1];
      InsertDiffer(c, init, x);
      var r := Insert(Earlier(), init, x);
      InsertMembers(Earlier(), init, x);
      forall i | 0 <= i < |r| ensures c.txHash(r[i]) != c.txHash(last) {
        InMultiset(r, r[i]);
        if r[i] != x { InMultiset(init, r[i]); }
      }
    }
  }

  lemma {:induction false} SortDiffer(c: Crypto, s: seq<Tx>)
    requires IdsDiffer(c, s)
    ensures IdsDiffer(c, Sort(Earlier(), s))
  {
    if |s| == 0 {
    } else {
      var init, last := s[..|s| - 1], s[|s| - 1];
      SortDiffer(c, init);
      SortMembers(Earlier(), init);
      forall t | t in Sort(Earlier(), init) ensures c.txHash(t) != c.txHash(last) {
        InMultiset(Sort(Earlier(), init), t);
        InMultiset(init, t);
      }
      hide Sort, Insert, Earlier;
      InsertDiffer(c, Sort(Earlier(), init), last);
      SortUnfold(s);
    }
  }

  lemma SortUnfold(s: seq<Tx>)
    requires |s| > 0
    ensures Sort(Earlier(), s) == Insert(Earlier(), Sort(Earlier(), s[..|s| - 1]), s[|s| - 1])
  {
  }

  lemma InTimeOrderDiffer(c: Crypto, txs: seq<Tx>)
    ensures IdsDiffer(c, InTimeOrder(c, txs))
  {
    DistinctDiffer(c, txs);
    SortDiffer(c, Distinct(c, txs));
  }

  lemma KeptNothing(c: Crypto, m: Accounts)
    ensures Kept(c, m, [], [], map[], m)
  {
  }

  lemma PoolOfPrefix(order: seq<Hash>, table: map<Hash, Tx>)
    ensures PoolOf(order[..0], table) == [] && PoolOf(order[..|order|], table) == PoolOf(order, table)
  {
    assert order[..|order|] == order;
  }

  lemma NotListedBefore(order: seq<Hash>, i: nat, table: map<Hash, Tx>)
    requires i < |order| && NoDuplicates(order) && forall h :: h in table ==> h in order[..i]
    ensures order[i] !in table
  {
  }

  /** What a refused transaction leaves behind reads the same as before. */
  lemma RefusalSame(before: Accounts, t: Tx, after: Accounts)
    requires after == if IsCoinbase(t) then before else Touch(before, t.from)
    ensures Same(after, before)
  {
  }

  /** The table of candidate ids matches the candidates collected so far. */
  ghost predicate Collected(c: Crypto, seen: seq<Tx>, cands: map<Hash, Tx>, order: seq<Tx>) {
    order == Distinct(c, seen) && forall h :: h in cands <==> Listed(c, order, h)
  }

  lemma CollectOne(c: Crypto, seen: seq<Tx>, cands: map<Hash, Tx>, order: seq<Tx>, t: Tx)
    requires Collected(c, seen, cands, order)
    ensures var h := c.txHash(t);
            var take := h !in cands && !IsCoinbase(t);
            Collected(c, seen + [t], if take then cands[h := t] else cands, if take then order + [t] else order)
  {
    assert (seen + [t])[..|seen|] == seen;
    var h := c.txHash(t);
    if h !in cands && !IsCoinbase(t) {
      forall g ensures Listed(c, order + [t], g) <==> Listed(c, order, g) || g == h {
        if Listed(c, order, g) {
          var u :| u in order && c.txHash(u) == g;
          assert u in order + [t];
        }
        assert t in order + [t];
      }
    }
  }

  lemma CollectedNothing(c: Crypto)
    ensures Collected(c, [], map[], [])
  {
  }

  /** An id kept so far belongs to an earlier transaction, so the next one's id is new. */
  lemma NextIdIsNew(c: Crypto, txs: seq<Tx>, i: nat, table: map<Hash, Tx>)
    requires IdsDiffer(c, txs) && i < |txs|
    requires forall h :: h in table ==> c.txHash(table[h]) == h && table[h] in txs[..i]
    ensures c.txHash(txs[i]) !in table
  {
  }

  lemma CollectedOrder(c: Crypto, seen: seq<Tx>, cands: map<Hash, Tx>, order: seq<Tx>)
    requires Collected(c, seen, cands, order)
    ensures order == Distinct(c, seen)
  {
  }

  lemma FilterNothing(keep: Tx -> bool, s: seq<Tx>)
    ensures Filter(keep, s[..0]) == [] && Filter(keep, s[..|s|]) == Filter(keep, s)
  {
    assert s[..|s|] == s;
  }

  lemma ConfirmedStep(c: Crypto, path: seq<Entry>, i: nat)
    requires i < |path|
    ensures ConfirmedIds(c, path[..i + 1])
         == ConfirmedIds(c, path[..i]) + set t | t in path[i].block.txs :: c.txHash(t)
  {
    assert path[..i + 1] == path[..i] + [path[i]];
  }

  lemma ConfirmedNothing(c: Crypto)
    ensures ConfirmedIds(c, []) == {}
  {
  }

  /** The table without the ids of the given transactions. */
  function WithoutIds(c: Crypto, table: map<Hash, Tx>, txs: seq<Tx>): map<Hash, Tx> {
    map h | h in table && !Listed(c, txs, h) :: table[h]
  }

  lemma EmptyPool(c: Crypto, m: Accounts, order: seq<Hash>, table: map<Hash, Tx>)
    requires Indexed(order, table) && table == map[]
    ensures order == [] && PoolOk(c, m, order, table) && Greedy(m, PoolOf(order, table)).kept == PoolOf(order, table)
  {
    FirstIsIn(order);
  }

  lemma FirstIsIn(order: seq<Hash>)
    ensures |order| > 0 ==> order[0] in order
  {
  }

  /** Applying a transaction uses up its nonce, so the accounts are not what they were. */
  lemma NonceMoved(m: Accounts, t: Tx)
    requires ApplyTx(m, t).Ok?
    ensures Get(ApplyTx(m, t).value, t.from).nonce != Get(m, t.from).nonce
  {
  }

  lemma SameSelf(m: Accounts)
    ensures Same(m, m)
  {
  }

  lemma GreedyNothing(m: Accounts)
    ensures Greedy(m, []).accounts == m
  {
  }

  lemma SameGreedyStep(m: Accounts, seen: seq<Tx>, work: Accounts, t: Tx)
    requires Same(work, Greedy(m, seen).accounts)
    ensures ApplyTx(work, t).Ok? ==> Same(ApplyTx(work, t).value, Greedy(m, seen + [t]).accounts)
    ensures ApplyTx(work, t).Err? ==> Greedy(m, seen + [t]).accounts == Greedy(m, seen).accounts
  {
    SameApplyTx(work, Greedy(m, seen).accounts, t);
    GreedyStep(m, seen, t);
    hide ApplyTx;
  }

  lemma WithoutIdsStep(c: Crypto, table: map<Hash, Tx>, txs: seq<Tx>, t: Tx)
    ensures WithoutIds(c, table, txs + [t])
         == WithoutIds(c, table, txs) - {c.txHash(t)}
  {
    assert t in txs + [t];
  }

  lemma WithoutNoIds(c: Crypto, table: map<Hash, Tx>)
    ensures WithoutIds(c, table, []) == table
  {
  }

  lemma GreedyOfNone(m: Accounts, txs: seq<Tx>)
    ensures Greedy(m, txs[..0]) == Pick([], m)
  {
  }

  lemma GreedyTakes(m: Accounts, seen: seq<Tx>, work: Accounts, t: Tx)
    requires Same(work, Greedy(m, seen).accounts)
    ensures ApplyTx(work, t).Ok? ==>
              && Same(ApplyTx(work, t).value, Greedy(m, seen + [t]).accounts)
              && Greedy(m, seen + [t]).kept == Greedy(m, seen).kept + [t]
    ensures ApplyTx(work, t).Err? ==> Greedy(m, seen + [t]) == Greedy(m, seen)
  {
    hide ApplyTx;
    SameApplyTx(work, Greedy(m, seen).accounts, t);
    GreedyStep(m, seen, t);
  }
}
