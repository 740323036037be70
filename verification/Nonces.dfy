/** Replay protection: along a chain every sender counts 0, 1, 2, ... */
module Nonces {
  import opened Basics
  import opened Chain
  import opened Ledger
  import opened Tree

  /** How many of the transactions a sender signed. */
  function Count(a: Address, txs: seq<Tx>): (n: nat)
    ensures n <= |txs|
  {
    if |txs| == 0 then 0
    else Count(a, txs[..|txs| - 1]) + if txs[|txs| - 1].from == a then 1 else 0
  }

  /** Transactions applied one after the other, all of which must apply. */
  function ApplyAll(m: Accounts, txs: seq<Tx>): Result<Accounts, LedgerError> {
    if |txs| == 0 then Ok(m)
    else
      match ApplyAll(m, txs[..|txs| - 1])
      case Err(e) => Err(e)
      case Ok(n) => ApplyTx(n, txs[|txs| - 1])
  }

  lemma {:induction false} CountConcat(a: Address, s: seq<Tx>, t: seq<Tx>)
    ensures Count(a, s + t) == Count(a, s) + Count(a, t)
  {
    if |t| == 0 {
      assert s + t == s;
    } else {
      assert (s + t)[..|s + t| - 1] == s + t[..|t| - 1];
      CountConcat(a, s, t[..|t| - 1]);
    }
  }

  lemma {:induction false} CountPrefix(a: Address, txs: seq<Tx>, i: nat)
    requires i < |txs|
    ensures Count(a, txs[..i]) + (if txs[i].from == a then 1 else 0) <= Count(a, txs)
  {
    assert txs == txs[..i] + txs[i..];
    CountConcat(a, txs[..i], txs[i..]);
    assert txs[i..] == [txs[i]] + txs[i + 1..];
    CountConcat(a, [txs[i]], txs[i + 1..]);
    assert [txs[i]][..0] == [];
  }

  /** Applying a transaction moves its sender's nonce by one and nobody else's. */
  lemma TxNonces(m: Accounts, t: Tx, a: Address)
    requires ApplyTx(m, t).Ok?
    ensures !IsCoinbase(t) && t.nonce == Get(m, t.from).nonce
    ensures Get(ApplyTx(m, t).value, a).nonce
         == if a == t.from then WrapU64(Get(m, a).nonce + 1) else Get(m, a).nonce
  {
  }

  lemma WrapAdd(n: nat, k: nat)
    ensures WrapU64(WrapU64(n) + k) == WrapU64(n + k)
  {
  }

  lemma WrapSmall(n: nat)
    requires n < TWO64
    ensures WrapU64(n) == n
  {
  }

  lemma {:induction false} AllPrefix(m: Accounts, txs: seq<Tx>, i: nat)
    requires i <= |txs| && ApplyAll(m, txs).Ok?
    ensures ApplyAll(m, txs[..i]).Ok?
  {
    hide ApplyTx;
    if i == |txs| {
      assert txs[..i] == txs;
    } else {
      assert txs[..|txs| - 1][..i] == txs[..i];
      AllPrefix(m, txs[..|txs| - 1], i);
    }
  }

  /** After a run, a nonce has moved by the number of transactions its owner signed. */
  lemma {:induction false} FinalNonce(m: Accounts, txs: seq<Tx>, a: Address)
    requires ApplyAll(m, txs).Ok?
    ensures Get(ApplyAll(m, txs).value, a).nonce == WrapU64(Get(m, a).nonce + Count(a, txs))
  {
    hide ApplyTx, Get, WrapU64;
    if |txs| == 0 {
      assert WrapU64(Get(m, a).nonce) == Get(m, a).nonce by { WrapSmall(Get(m, a).nonce); }
    } else {
      var before := txs[..|txs| - 1];
      FinalNonce(m, before, a);
      TxNonces(ApplyAll(m, before).value, txs[|txs| - 1], a);
      WrapAdd(Get(m, a).nonce + Count(a, before), 1);
    }
  }

  /** Every transaction in a run carries the nonce its sender had reached. */
  lemma {:induction false} NonceAt(m: Accounts, txs: seq<Tx>, i: nat)
    requires i < |txs| && ApplyAll(m, txs).Ok?
    ensures !IsCoinbase(txs[i])
    ensures txs[i].nonce == WrapU64(Get(m, txs[i].from).nonce + Count(txs[i].from, txs[..i]))
  {
    AllPrefix(m, txs, i);
    AllPrefix(m, txs, i + 1);
    assert txs[..i + 1][..i] == txs[..i];
    FinalNonce(m, txs[..i], txs[i].from);
    TxNonces(ApplyAll(m, txs[..i]).value, txs[i], txs[i].from);
  }

  // ----- along a chain -----

  /** Every transaction of a block but its coinbase. */
  function Regular(b: Block): seq<Tx> {
    if |b.txs| == 0 then [] else b.txs[1..]
  }

  /** The regular transactions of a chain in the order they were applied. */
  function ChainTxs(path: seq<Entry>): seq<Tx> {
    if |path| == 0 then []
    else
      var e := path[|path| - 1];
      ChainTxs(path[..|path| - 1]) + if e.block.height == 0 then [] else Regular(e.block)
  }

  lemma {:induction false} BodyIsApplyAll(c: Crypto, m: Accounts, txs: seq<Tx>)
    requires ApplyBody(c, m, txs).Ok?
    ensures ApplyAll(m, txs) == Ok(ApplyBody(c, m, txs).value.accounts)
  {
    if |txs| == 0 {
    } else {
      BodyIsApplyAll(c, m, txs[..|txs| - 1]);
      hide ApplyTx, Verify;
    }
  }

  lemma CreditKeepsNonces(m: Accounts, to: Address, amount: u64, a: Address)
    requires Credit(m, to, amount).Ok?
    ensures Get(Credit(m, to, amount).value, a).nonce == Get(m, a).nonce
  {
  }

  lemma BlockNonces(c: Crypto, p: Params, m: Accounts, b: Block, a: Address)
    requires p.halvingInterval > 0 && ApplyBlock(c, p, m, b).Ok?
    ensures ApplyAll(m, Regular(b)).Ok?
    ensures Get(ApplyBlock(c, p, m, b).value, a).nonce == Get(ApplyAll(m, Regular(b)).value, a).nonce
  {
    BodyIsApplyAll(c, m, b.txs[1..]);
    CreditKeepsNonces(ApplyBody(c, m, b.txs[1..]).value.accounts, b.txs[0].to, b.txs[0].amount, a);
    hide Verify, RewardAt, ApplyBody, ApplyAll, Credit;
  }

  /** Every transaction of one sender carries the number of its earlier ones (modulo 2^64). */
  ghost predicate NoncesFollow(a: Address, txs: seq<Tx>) {
    forall i :: 0 <= i < |txs| && txs[i].from == a ==> NonceFollows(txs, i)
  }

  predicate NonceFollows(txs: seq<Tx>, i: nat)
    requires i < |txs|
  {
    !IsCoinbase(txs[i]) && txs[i].nonce == WrapU64(Count(txs[i].from, txs[..i]))
  }

  /** Along a valid chain, for every sender: its transactions carry the number of its earlier
      ones, in chain order, and its account nonce is how many it has (modulo 2^64). */
  lemma {:induction false} ChainNonces(c: Crypto, p: Params, path: seq<Entry>, a: Address)
    requires p.halvingInterval > 0 && Replay(c, p, path).Ok?
    ensures Get(Replay(c, p, path).value, a).nonce == WrapU64(Count(a, ChainTxs(path)))
    ensures NoncesFollow(a, ChainTxs(path))
  {
    if |path| == 0 {
    } else {
      var e := path[|path| - 1];
      var before := path[..|path| - 1];
      ChainNonces(c, p, before, a);
      hide Regular, NoncesFollow, Count, Get, WrapU64, ApplyBlock;
      if e.block.height > 0 {
        var m := Replay(c, p, before).value;
        BlockNonces(c, p, m, e.block, a);
        NoncesContinue(m, ChainTxs(before), Regular(e.block), a);
      } else {
        assert ChainTxs(path) == ChainTxs(before);
      }
    }
  }

  lemma NoncesContinue(m: Accounts, earlier: seq<Tx>, now: seq<Tx>, a: Address)
    requires ApplyAll(m, now).Ok? && Get(m, a).nonce == WrapU64(Count(a, earlier)) && NoncesFollow(a, earlier)
    ensures Get(ApplyAll(m, now).value, a).nonce == WrapU64(Count(a, earlier + now))
    ensures NoncesFollow(a, earlier + now)
  {
    hide Get, ApplyAll, WrapU64, Count;
    FinalNonce(m, now, a);
    CountConcat(a, earlier, now);
    WrapAdd(Count(a, earlier), Count(a, now));
    var all := earlier + now;
    forall i | 0 <= i < |all| && all[i].from == a ensures NonceFollows(all, i) {
      if i < |earlier| {
        assert all[..i] == earlier[..i];
        assert NonceFollows(earlier, i);
      } else {
        LaterNonceFollows(m, earlier, now, i - |earlier|);
      }
    }
  }

  lemma LaterNonceFollows(m: Accounts, earlier: seq<Tx>, now: seq<Tx>, j: nat)
    requires j < |now| && ApplyAll(m, now).Ok?
    requires Get(m, now[j].from).nonce == WrapU64(Count(now[j].from, earlier))
    ensures NonceFollows(earlier + now, |earlier| + j)
  {
    hide Get, ApplyAll, WrapU64, Count;
    var a := now[j].from;
    assert (earlier + now)[..|earlier| + j] == earlier + now[..j];
    CountConcat(a, earlier, now[..j]);
    NonceAt(m, now, j);
    WrapAdd(Count(a, earlier), Count(a, now[..j]));
  }

  /** One sender's nonces, in chain order. */
  function NoncesOf(a: Address, txs: seq<Tx>): seq<nat> {
    if |txs| == 0 then []
    else NoncesOf(a, txs[..|txs| - 1]) + if txs[|txs| - 1].from == a then [txs[|txs| - 1].nonce] else []
  }

  lemma {:induction false} NoncesInOrder(a: Address, txs: seq<Tx>)
    requires NoncesFollow(a, txs)
    ensures |NoncesOf(a, txs)| == Count(a, txs)
    ensures forall k :: 0 <= k < Count(a, txs) ==> NoncesOf(a, txs)[k] == WrapU64(k)
  {
    hide WrapU64;
    if |txs| == 0 {
    } else {
      var before := txs[..|txs| - 1];
      forall i | 0 <= i < |before| && before[i].from == a ensures NonceFollows(before, i) {
        assert before[..i] == txs[..i];
        assert NonceFollows(txs, i);
      }
      NoncesInOrder(a, before);
      if txs[|txs| - 1].from == a { assert NonceFollows(txs, |txs| - 1); }
    }
  }

  /** Replay protection: on every valid chain each sender's transactions carry the nonces 0, 1, 2, ... in
      order exactly as long as there are no more than 2^64 of them, and the account holds the next one
      exactly as long as there are fewer. */
  lemma ReplayProtection(c: Crypto, p: Params, path: seq<Entry>, a: Address)
    requires p.halvingInterval > 0 && Replay(c, p, path).Ok?
    ensures var n := Count(a, ChainTxs(path));
            && (NoncesOf(a, ChainTxs(path)) == seq(n, k => k) <==> n <= TWO64)
            && (Get(Replay(c, p, path).value, a).nonce == n <==> n < TWO64)
  {
    hide Replay, ChainTxs, Get, Count, NoncesOf, WrapU64;
    var n, nonces := Count(a, ChainTxs(path)), NoncesOf(a, ChainTxs(path));
    ChainNonces(c, p, path, a);
    NoncesInOrder(a, ChainTxs(path));
    forall k: nat | k < n && k < TWO64 ensures nonces[k] == k {
      WrapSmall(k);
    }
    if n < TWO64 {
      WrapSmall(n);
    }
    if n > TWO64 {
      assert nonces[TWO64] == WrapU64(TWO64);
      assert seq(n, k => k)[TWO64] == TWO64;
    }
  }

  /** While its sender has fewer than 2^64 transactions a transaction on the chain is behind its nonce. */
  lemma ConfirmedIsStale(c: Crypto, p: Params, path: seq<Entry>, i: nat)
    requires p.halvingInterval > 0 && Replay(c, p, path).Ok? && i < |ChainTxs(path)|
    ensures var n := Count(ChainTxs(path)[i].from, ChainTxs(path));
            n < TWO64 ==>
              && Get(Replay(c, p, path).value, ChainTxs(path)[i].from).nonce == n
              && ChainTxs(path)[i].nonce < n
    ensures !IsCoinbase(ChainTxs(path)[i])
  {
    var txs := ChainTxs(path);
    var a := txs[i].from;
    hide Replay, ChainTxs, Get, Count, WrapU64;
    ChainNonces(c, p, path, a);
    assert NonceFollows(txs, i);
    CountPrefix(a, txs, i);
    if Count(a, txs) < TWO64 {
      WrapSmall(Count(a, txs[..i]));
      WrapSmall(Count(a, txs));
    }
  }

  lemma {:induction false} NthOfSender(a: Address, txs: seq<Tx>, k: nat) returns (i: nat)
    requires k < Count(a, txs)
    ensures i < |txs| && txs[i].from == a && Count(a, txs[..i]) == k
  {
    var before := txs[..|txs| - 1];
    if k == Count(a, before) {
      i := |txs| - 1;
    } else {
      i := NthOfSender(a, before, k);
      assert before[..i] == txs[..i];
    }
  }

  ghost predicate CarriesNonce(txs: seq<Tx>, i: nat, a: Address, nonce: u64) {
    i < |txs| && txs[i].from == a && txs[i].nonce == nonce
  }

  /** A transaction already on the chain carries its sender's next nonce exactly when the sender has been
      through all 2^64 of them. */
  lemma ReplayOnlyAfterWrap(c: Crypto, p: Params, path: seq<Entry>, a: Address)
    requires p.halvingInterval > 0 && Replay(c, p, path).Ok?
    ensures var txs, next := ChainTxs(path), Get(Replay(c, p, path).value, a).nonce;
            (exists i :: CarriesNonce(txs, i, a, next)) <==> Count(a, txs) >= TWO64
  {
    hide Replay, ChainTxs, Get, Count, WrapU64;
    var txs, next := ChainTxs(path), Get(Replay(c, p, path).value, a).nonce;
    var n := Count(a, txs);
    ChainNonces(c, p, path, a);
    if n >= TWO64 {
      var i := NthOfSender(a, txs, n - TWO64);
      assert NonceFollows(txs, i);
      WrapAround(n - TWO64);
      assert CarriesNonce(txs, i, a, next);
    } else {
      forall i: nat | i < |txs| && txs[i].from == a ensures !CarriesNonce(txs, i, a, next) {
        ConfirmedIsStale(c, p, path, i);
      }
    }
  }

  lemma WrapAround(n: nat)
    ensures WrapU64(n + TWO64) == WrapU64(n)
  {
  }
}
