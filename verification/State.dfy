/** The mutable account state, each operation tied to its rule on maps. */
module AccountState {
  import opened Basics
  import opened Chain
  import opened Ledger

  class State {
    var accounts: Accounts

    constructor ()
      ensures accounts == map[]
    {
      accounts := map[];
    }

    /** Copies every record, so later writes to the copy never reach this one. */
    method Clone() returns (copy: State)
      ensures fresh(copy) && copy.accounts == accounts
    {
      copy := new State();
      var left := accounts.Keys;
      while left != {}
        invariant fresh(copy) && left <= accounts.Keys
        invariant copy.accounts == map a | a in accounts && a !in left :: accounts[a]
        decreases left
      {
        var a :| a in left;
        copy.accounts := copy.accounts[a := accounts[a]];
        left := left - {a};
      }
    }

    /** The record to write to, created empty when there is none. */
    method Lookup(a: Address) returns (account: Account)
      modifies this
      ensures account == Get(old(accounts), a) && accounts == Touch(old(accounts), a)
    {
      if a !in accounts {
        accounts := accounts[a := Account(0, 0)];
      }
      account := accounts[a];
    }

    method Credit(a: Address, amount: u64) returns (err: Option<LedgerError>)
      modifies this
      ensures err.None? <==> Ledger.Credit(old(accounts), a, amount).Ok?
      ensures err.None? ==> accounts == Ledger.Credit(old(accounts), a, amount).value
      ensures err.Some? ==> err.value == BalanceOverflow && accounts == Touch(old(accounts), a)
    {
      if amount == 0 {
        return None;
      }
      var account := Lookup(a);
      var sum := WrapU64(account.balance + amount);
      if sum < account.balance {
        return Some(BalanceOverflow);
      }
      accounts := accounts[a := account.(balance := sum)];
      assert accounts == old(accounts)[a := account.(balance := sum)];
      err := None;
    }

    /** A refused transaction changes no balance and no nonce: it leaves at most an empty record. */
    method ApplyTx(t: Tx) returns (err: Option<LedgerError>)
      modifies this
      ensures err.None? <==> Ledger.ApplyTx(old(accounts), t).Ok?
      ensures err.None? ==> accounts == Ledger.ApplyTx(old(accounts), t).value
      ensures err.Some? ==> Ledger.ApplyTx(old(accounts), t) == Err(err.value)
      ensures err.Some? && err.value != BalanceOverflow ==>
                accounts == if IsCoinbase(t) then old(accounts) else Touch(old(accounts), t.from)
    {
      if IsCoinbase(t) {
        return Some(CoinbaseOutsideBlock);
      }
      var sender := Lookup(t.from);
      if t.nonce != sender.nonce {
        return Some(BadNonce);
      }
      var spend := WrapU64(t.amount + t.fee);
      if spend < t.amount {
        return Some(SpendOverflow);
      }
      if sender.balance < spend {
        return Some(InsufficientFunds);
      }
      accounts := accounts[t.from := Account(sender.balance - spend, WrapU64(sender.nonce + 1))];
      assert accounts == Debit(old(accounts), t);
      err := Credit(t.to, t.amount);
    }

    /** Intrinsic validity plus nonce and balance. The sum is not checked for overflow here. */
    method ValidateTx(c: Crypto, t: Tx) returns (err: Option<LedgerError>)
      modifies this
      ensures err.None? <==>
                && Verify(c, t).None? && t.nonce == Get(old(accounts), t.from).nonce
                && Get(old(accounts), t.from).balance >= WrapU64(t.amount + t.fee)
      ensures accounts == if Verify(c, t).Some? then old(accounts) else Touch(old(accounts), t.from)
    {
      var invalid := Verify(c, t);
      if invalid.Some? {
        return Some(Unverified(invalid.value));
      }
      var sender := Lookup(t.from);
      if t.nonce != sender.nonce {
        return Some(BadNonce);
      }
      if sender.balance < WrapU64(t.amount + t.fee) {
        return Some(InsufficientFunds);
      }
      err := None;
    }

    /** One transaction of a block: verified, applied, its fee added up. */
    method StepBody(c: Crypto, fees: u64, t: Tx) returns (err: Option<LedgerError>, feeSum: u64)
      modifies this
      ensures Ledger.StepBody(c, Progress(old(accounts), fees), t)
           == if err.None? then Ok(Progress(accounts, feeSum)) else Err(err.value)
      ensures err.Some? && !Overflow(err.value) ==> accounts == old(accounts)
                                                    || accounts == Touch(old(accounts), t.from)
    {
      feeSum := fees;
      var invalid := Verify(c, t);
      if invalid.Some? {
        return Some(Unverified(invalid.value)), feeSum;
      }
      err := ApplyTx(t);
      if err.Some? {
        return;
      }
      feeSum := WrapU64(fees + t.fee);
      if feeSum < t.fee {
        err := Some(FeeOverflow);
      }
    }

    method ApplyBody(c: Crypto, body: seq<Tx>) returns (err: Option<LedgerError>, feeSum: u64)
      modifies this
      ensures Ledger.ApplyBody(c, old(accounts), body)
           == if err.None? then Ok(Progress(accounts, feeSum)) else Err(err.value)
      ensures err.Some? && !Overflow(err.value) ==>
                exists k: nat :: LeftAt(c, old(accounts), body, accounts, k)
    {
      err, feeSum := None, 0;
      for i := 0 to |body|
        invariant Ledger.ApplyBody(c, old(accounts), body[..i]) == Ok(Progress(accounts, feeSum))
        invariant err.None?
      {
        assert body[..i + 1][..i] == body[..i];
        err, feeSum := StepBody(c, feeSum, body[i]);
        if err.Some? {
          BodyStopsAtFirstError(c, old(accounts), body, i + 1);
          assert !Overflow(err.value) ==> LeftAt(c, old(accounts), body, accounts, i);
          return;
        }
      }
      assert body[..|body|] == body;
    }

    /** Transactions first, the coinbase last. After an error the state is only fit to be thrown away, which
        is what every caller does: it holds the transactions before the failing one. */
    method ApplyBlock(c: Crypto, p: Params, b: Block) returns (err: Option<LedgerError>)
      requires p.halvingInterval > 0
      modifies this
      ensures err.None? ==> Ledger.ApplyBlock(c, p, old(accounts), b) == Ok(accounts)
      ensures err.Some? ==> Ledger.ApplyBlock(c, p, old(accounts), b) == Err(err.value)
      ensures |b.txs| == 0 || !IsCoinbase(b.txs[0]) ==> accounts == old(accounts)
      ensures |b.txs| > 0 && IsCoinbase(b.txs[0]) && err.Some? && !Overflow(err.value) ==>
                exists k: nat :: LeftAt(c, old(accounts), b.txs[1..], accounts, k)
    {
      hide Verify, RewardAt, LeftAt;
      if |b.txs| == 0 || !IsCoinbase(b.txs[0]) {
        return Some(NoCoinbase);
      }
      var feeSum: u64;
      err, feeSum := ApplyBody(c, b.txs[1..]);
      if err.Some? {
        return;
      }
      var cb := b.txs[0];
      LeftAtEnd(c, old(accounts), b.txs[1..]);
      var invalid := Verify(c, cb);
      if invalid.Some? {
        return Some(Unverified(invalid.value));
      }
      if cb.amount != WrapU64(RewardAt(p, b.height) + feeSum) {
        return Some(WrongReward);
      }
      err := Credit(cb.to, cb.amount);
    }
  }
}
