/** Who pays and who is paid: every single balance after a transaction, a block and a whole chain, in sums. */
module Balances {
  import opened Basics
  import opened Chain
  import opened Ledger
  import opened Tree
  import opened Conservation
  import opened Nonces

  // ----- one transaction -----

  /** A transaction applies exactly if it is no coinbase, carries its sender's next nonce, asks for no more than
      the sender has, and its recipient's balance has room for the amount. */
  lemma TxApplies(m: Accounts, t: Tx)
    ensures ApplyTx(m, t).Ok? <==>
            && t.from != "" && t.nonce == Get(m, t.from).nonce
            && t.amount + t.fee <= Get(m, t.from).balance
            && (t.to == t.from || Get(m, t.to).balance + t.amount < TWO64)
  {
    WrapCases(t.amount + t.fee);
    if CheckTx(m, t).None? {
      WrapCases(Get(Debit(m, t), t.to).balance + t.amount);
    }
  }

  lemma WrapCases(n: nat)
    requires n < 2 * TWO64
    ensures WrapU64(n) == if n < TWO64 then n else n - TWO64
  {
  }

  /** The sender is out of pocket by amount and fee, the recipient gains the amount, both if they are one and the
      same, nobody else notices; and only the sender's nonce moves. */
  lemma TxBalances(m: Accounts, t: Tx, a: Address)
    requires ApplyTx(m, t).Ok?
    ensures var n := ApplyTx(m, t).value;
            && Get(n, a).balance
               == Get(m, a).balance - (if a == t.from then t.amount + t.fee else 0)
                  + (if a == t.to then t.amount else 0)
            && Get(n, a).nonce
               == if a != t.from then Get(m, a).nonce
                  else if Get(m, a).nonce == TWO64 - 1 then 0 else Get(m, a).nonce + 1
  {
    TxApplies(m, t);
    WrapCases(t.amount + t.fee);
    WrapCases(Get(m, t.from).nonce + 1);
    WrapCases(Get(Debit(m, t), t.to).balance + t.amount);
  }

  /** What a refused transaction is refused for: the first of these that holds. */
  lemma TxRefusedFor(m: Accounts, t: Tx)
    requires ApplyTx(m, t).Err?
    ensures ApplyTx(m, t).error
         == if t.from == "" then CoinbaseOutsideBlock
            else if t.nonce != Get(m, t.from).nonce then BadNonce
            else if t.amount + t.fee >= TWO64 then SpendOverflow
            else if t.amount + t.fee > Get(m, t.from).balance then InsufficientFunds
            else BalanceOverflow
  {
    WrapCases(t.amount + t.fee);
  }

  // ----- sums over a run -----

  function Spent(a: Address, txs: seq<Tx>): nat {
    if |txs| == 0 then 0
    else Spent(a, txs[..|txs| - 1]) + if txs[|txs| - 1].from == a then txs[|txs| - 1].amount + txs[|txs| - 1].fee else 0
  }

  function Received(a: Address, txs: seq<Tx>): nat {
    if |txs| == 0 then 0
    else Received(a, txs[..|txs| - 1]) + if txs[|txs| - 1].to == a then txs[|txs| - 1].amount else 0
  }

  function Fees(txs: seq<Tx>): nat {
    if |txs| == 0 then 0 else Fees(txs[..|txs| - 1]) + txs[|txs| - 1].fee
  }

  lemma {:induction false} SumsConcat(a: Address, s: seq<Tx>, t: seq<Tx>)
    ensures Spent(a, s + t) == Spent(a, s) + Spent(a, t) && Received(a, s + t) == Received(a, s) + Received(a, t)
  {
    if |t| == 0 {
      assert s + t == s;
    } else {
      assert (s + t)[..|s + t| - 1] == s + t[..|t| - 1];
      SumsConcat(a, s, t[..|t| - 1]);
    }
  }

  /** After a run everybody has what they had, less what they spent, plus what they received. */
  lemma {:induction false} RunBalances(m: Accounts, txs: seq<Tx>, a: Address)
    requires ApplyAll(m, txs).Ok?
    ensures Get(ApplyAll(m, txs).value, a).balance == Get(m, a).balance - Spent(a, txs) + Received(a, txs)
  {
    hide ApplyTx, Get;
    if |txs| == 0 {
    } else {
      var before := txs[..|txs| - 1];
      RunBalances(m, before, a);
      TxBalances(ApplyAll(m, before).value, txs[|txs| - 1], a);
    }
  }

  // ----- one block -----

  /** Transactions in a block's body verify and apply one after the other, and the fees they collect are summed up
      without wrapping. */
  lemma {:induction false} BodyApplies(c: Crypto, m: Accounts, txs: seq<Tx>)
    requires Total(m) < TWO64
    ensures ApplyBody(c, m, txs).Ok? <==> ApplyAll(m, txs).Ok? && forall t :: t in txs ==> Verify(c, t).None?
    ensures ApplyBody(c, m, txs).Ok? ==>
              && ApplyBody(c, m, txs).value.accounts == ApplyAll(m, txs).value
              && ApplyBody(c, m, txs).value.fees == Fees(txs)
  {
    hide Verify, ApplyTx, Total;
    if |txs| == 0 {
    } else {
      var before, last := txs[..|txs| - 1], txs[|txs| - 1];
      BodyApplies(c, m, before);
      BodyConserves(c, m, before);
      assert forall t :: t in txs <==> t in before || t == last;
      if ApplyBody(c, m, before).Ok? {
        var at := ApplyBody(c, m, before).value;
        StepConserves(c, at, last);
        if Verify(c, last).None? && ApplyTx(at.accounts, last).Ok? {
          FeeFits(c, at, last);
        }
      }
    }
  }

  lemma FeeFits(c: Crypto, at: Progress, t: Tx)
    requires Verify(c, t).None? && ApplyTx(at.accounts, t).Ok? && Total(at.accounts) + at.fees < TWO64
    ensures at.fees + t.fee < TWO64
    ensures StepBody(c, at, t) == Ok(Progress(ApplyTx(at.accounts, t).value, at.fees + t.fee))
  {
    hide Verify;
    StepConserves(c, at, t);
    TxConserves(at.accounts, t);
    hide ApplyTx;
    WrapCases(at.fees + t.fee);
  }

  /** A block applies exactly if its first transaction is a coinbase that verifies and pays the reward and all
      fees, and the others verify and apply one after the other before it. */
  lemma BlockApplies(c: Crypto, p: Params, m: Accounts, b: Block)
    requires p.halvingInterval > 0 && Total(m) + RewardAt(p, b.height) < TWO64
    ensures ApplyBlock(c, p, m, b).Ok? <==>
            && |b.txs| > 0 && b.txs[0].from == "" && Verify(c, b.txs[0]).None?
            && ApplyAll(m, b.txs[1..]).Ok? && (forall t :: t in b.txs[1..] ==> Verify(c, t).None?)
            && b.txs[0].amount == RewardAt(p, b.height) + Fees(b.txs[1..])
  {
    hide Verify, RewardAt, Total, ApplyBody, ApplyAll, Fees, WrapU64;
    if |b.txs| > 0 && b.txs[0].from == "" {
      var body := b.txs[1..];
      BodyApplies(c, m, body);
      BodyConserves(c, m, body);
      if ApplyBody(c, m, body).Ok? {
        var at := ApplyBody(c, m, body).value;
        WrapCases(RewardAt(p, b.height) + at.fees);
        CoinbaseConserves(c, p, at, b);
        CreditOnlyOverflows(at.accounts, b.txs[0].to, b.txs[0].amount);
      }
    }
  }

  lemma CreditBalances(m: Accounts, to: Address, amount: u64, a: Address)
    requires Credit(m, to, amount).Ok?
    ensures Get(Credit(m, to, amount).value, a).balance == Get(m, a).balance + if a == to then amount else 0
  {
    WrapCases(Get(m, to).balance + amount);
  }

  /** What a block pays its miner. */
  ghost function MintedBy(p: Params, a: Address, b: Block): nat
    requires p.halvingInterval > 0
  {
    if |b.txs| > 0 && b.txs[0].to == a then RewardAt(p, b.height) + Fees(b.txs[1..]) else 0
  }

  /** Over a block everybody loses what they spent in it and gains what they received in it, and its coinbase's
      recipient gains reward and fees on top. */
  lemma BlockBalances(c: Crypto, p: Params, m: Accounts, b: Block, a: Address)
    requires p.halvingInterval > 0 && Total(m) + RewardAt(p, b.height) < TWO64 && ApplyBlock(c, p, m, b).Ok?
    ensures |b.txs| > 0
    ensures Get(ApplyBlock(c, p, m, b).value, a).balance
         == Get(m, a).balance - Spent(a, b.txs[1..]) + Received(a, b.txs[1..])
            + if a == b.txs[0].to then RewardAt(p, b.height) + Fees(b.txs[1..]) else 0
  {
    hide Verify, RewardAt, Total, ApplyBody, ApplyAll, Fees, Spent, Received, Credit, Get, WrapU64;
    var body := b.txs[1..];
    BlockApplies(c, p, m, b);
    BodyApplies(c, m, body);
    BodyConserves(c, m, body);
    RunBalances(m, body, a);
    CreditBalances(ApplyBody(c, m, body).value.accounts, b.txs[0].to, b.txs[0].amount, a);
  }

  // ----- a whole chain -----

  /** What the blocks of a chain above genesis paid an address as their miner. */
  ghost function Minted(p: Params, a: Address, path: seq<Entry>): nat
    requires p.halvingInterval > 0
  {
    if |path| == 0 then 0
    else
      var b := path[|path| - 1].block;
      Minted(p, a, path[..|path| - 1]) + if b.height == 0 then 0 else MintedBy(p, a, b)
  }

  /** On every chain each balance is what its blocks paid the address as their miner and what it received, less
      what it spent. */
  lemma {:induction false} ChainBalances(c: Crypto, p: Params, path: seq<Entry>, a: Address)
    requires SoundParams(p) && HeightsFromGenesis(path) && Replay(c, p, path).Ok?
    ensures Get(Replay(c, p, path).value, a).balance
         == Minted(p, a, path) + Received(a, ChainTxs(path)) - Spent(a, ChainTxs(path))
  {
    hide ApplyBlock, Spent, Received, Get, MintedBy;
    if |path| == 0 {
      NothingYet(a);
    } else {
      var e, before := path[|path| - 1], path[..|path| - 1];
      ChainBalances(c, p, before, a);
      if e.block.height == 0 {
        assert ChainTxs(before) + [] == ChainTxs(before);
      } else {
        var m := Replay(c, p, before).value;
        RoomForReward(c, p, before);
        BlockBalances(c, p, m, e.block, a);
        MintedHere(p, a, e.block);
        SumsConcat(a, ChainTxs(before), Regular(e.block));
      }
    }
  }

  lemma MintedHere(p: Params, a: Address, b: Block)
    requires p.halvingInterval > 0 && |b.txs| > 0
    ensures MintedBy(p, a, b) == if a == b.txs[0].to then RewardAt(p, b.height) + Fees(b.txs[1..]) else 0
  {
  }

  lemma NothingYet(a: Address)
    ensures Get(map[], a).balance == 0 && Spent(a, []) == 0 && Received(a, []) == 0
  {
  }

  lemma RoomForReward(c: Crypto, p: Params, before: seq<Entry>)
    requires SoundParams(p) && 0 < |before| < TWO64 && HeightsFromGenesis(before) && Replay(c, p, before).Ok?
    ensures Total(Replay(c, p, before).value) + RewardAt(p, |before|) < TWO64
  {
    hide RewardAt, Replay, Total, Supply;
    ReplayConserves(c, p, before);
    SupplyBound(p, |before|);
    SupplyStep(p, |before|);
  }

  // ----- signatures -----

  /** Every transaction above genesis on a chain that replays was signed: it carries a key of 32 octets that hashes
      to its sender, and a signature under that key that is good for the rest of it. */
  lemma {:induction false} ChainSigned(c: Crypto, p: Params, path: seq<Entry>, i: nat, j: nat)
    requires p.halvingInterval > 0 && Replay(c, p, path).Ok?
    requires i < |path| && path[i].block.height > 0 && 0 < j < |path[i].block.txs|
    ensures var t := path[i].block.txs[j];
            && t.from != "" && t.pubKey.Some? && |t.pubKey.value| == 32 && c.addressOf(t.pubKey.value) == t.from
            && t.sig.Some? && c.signatureValid(t.pubKey.value, t.(sig := None), t.sig.value)
  {
    hide ApplyBlock, ApplyTx;
    if i == |path| - 1 {
      BlockSigned(c, p, Replay(c, p, path[..|path| - 1]).value, path[i].block, j);
    } else {
      ChainSigned(c, p, path[..|path| - 1], i, j);
    }
  }

  lemma BlockSigned(c: Crypto, p: Params, m: Accounts, b: Block, j: nat)
    requires p.halvingInterval > 0 && ApplyBlock(c, p, m, b).Ok? && 0 < j < |b.txs|
    ensures var t := b.txs[j];
            && t.from != "" && t.pubKey.Some? && |t.pubKey.value| == 32 && c.addressOf(t.pubKey.value) == t.from
            && t.sig.Some? && c.signatureValid(t.pubKey.value, t.(sig := None), t.sig.value)
  {
    hide Verify, RewardAt, ApplyBody, ApplyTx, ApplyCoinbase;
    BodySigned(c, m, b.txs[1..], j - 1);
    assert b.txs[1..][j - 1] == b.txs[j];
    VerifyMeaning(c, b.txs[j]);
  }

  lemma {:induction false} BodySigned(c: Crypto, m: Accounts, txs: seq<Tx>, j: nat)
    requires ApplyBody(c, m, txs).Ok? && j < |txs|
    ensures Verify(c, txs[j]).None? && txs[j].from != ""
  {
    hide Verify;
    if j == |txs| - 1 {
    } else {
      BodySigned(c, m, txs[..|txs| - 1], j);
    }
  }
}
