/** The account state as it lies in memory: a table of records updated in place. Each operation has the
    effect its rule on maps gives it, and a clone shares no record with the table it was made from. */
module AccountRecords {
  import opened Basics
  import opened Chain
  import opened Ledger

  class Record {
    var balance: u64
    var nonce: u64

    constructor (balance: u64, nonce: u64)
      ensures this.balance == balance && this.nonce == nonce
    {
      this.balance, this.nonce := balance, nonce;
    }
  }

  class Table {
    var records: map<Address, Record>

    /** No two addresses share a record. */
    ghost predicate Valid()
      reads this
    {
      forall a, b :: a in records && b in records && records[a] == records[b] ==> a == b
    }

    ghost function Contents(): Accounts
      reads this, records.Values
    {
      map a | a in records :: Account(records[a].balance, records[a].nonce)
    }

    constructor ()
      ensures records == map[]
    {
      records := map[];
    }

    /** A deep copy: every record is new. */
    method Clone() returns (copy: Table)
      requires Valid()
      ensures fresh(copy) && fresh(copy.records.Values) && copy.Valid() && copy.Contents() == Contents()
    {
      copy := new Table();
      var left := records.Keys;
      while left != {}
        invariant fresh(copy) && copy.Valid() && left <= records.Keys
        invariant forall a :: a in copy.records ==> fresh(copy.records[a])
        invariant copy.records.Keys == records.Keys - left
        invariant forall a :: a in copy.records ==>
                    copy.records[a].balance == records[a].balance && copy.records[a].nonce == records[a].nonce
        decreases left
      {
        var a :| a in left;
        var r := new Record(records[a].balance, records[a].nonce);
        copy.records := copy.records[a := r];
        left := left - {a};
      }
    }

    /** The record of an address, created empty when there is none. */
    method Lookup(a: Address) returns (r: Record)
      requires Valid()
      modifies this
      ensures Valid() && a in records && records[a] == r
      ensures old(records).Keys <= records.Keys && forall x :: x in old(records) ==> records[x] == old(records)[x]
      ensures a !in old(records) ==> fresh(r)
      ensures records.Keys == old(records).Keys + {a}
      ensures Account(r.balance, r.nonce) == Get(old(Contents()), a)
      ensures Contents() == Touch(old(Contents()), a)
    {
      if a !in records {
        var empty := new Record(0, 0);
        records := records[a := empty];
      }
      r := records[a];
    }

    /** A write to one record changes one entry. */
    twostate lemma OneWritten(a: Address)
      requires Valid() && records == old(records) && a in records
      requires forall x :: x in records && records[x] != records[a] ==> unchanged(records[x])
      ensures Contents() == old(Contents())[a := Account(records[a].balance, records[a].nonce)]
    {
      assert forall x :: x in records && x != a ==> records[x] != records[a];
    }

    method Credit(a: Address, amount: u64) returns (err: Option<LedgerError>)
      requires Valid()
      modifies this, records.Values
      ensures Valid() && fresh(records.Values - old(records.Values))
      ensures err.None? <==> Ledger.Credit(old(Contents()), a, amount).Ok?
      ensures err.None? ==> Contents() == Ledger.Credit(old(Contents()), a, amount).value
      ensures err.Some? ==> err.value == BalanceOverflow && Contents() == Touch(old(Contents()), a)
    {
      hide Contents;
      if amount == 0 {
        return None;
      }
      ghost var before := Contents();
      var r := Lookup(a);
      var sum := WrapU64(r.balance + amount);
      if sum < r.balance {
        return Some(BalanceOverflow);
      }
      label Found:
      r.balance := sum;
      OneWritten@Found(a);
      assert Touch(before, a)[a := Account(sum, r.nonce)] == before[a := Account(sum, r.nonce)];
      err := None;
    }

    /** The sender's record is debited in place; when it pays itself the very same record is credited. */
    method ApplyTx(t: Tx) returns (err: Option<LedgerError>)
      requires Valid()
      modifies this, records.Values
      ensures Valid() && fresh(records.Values - old(records.Values))
      ensures err.None? <==> Ledger.ApplyTx(old(Contents()), t).Ok?
      ensures err.None? ==> Contents() == Ledger.ApplyTx(old(Contents()), t).value
      ensures err.Some? ==> Ledger.ApplyTx(old(Contents()), t) == Err(err.value)
      ensures err.Some? && err.value != BalanceOverflow ==>
                Contents() == if IsCoinbase(t) then old(Contents()) else Touch(old(Contents()), t.from)
    {
      hide Contents, Ledger.Credit;
      if IsCoinbase(t) {
        return Some(CoinbaseOutsideBlock);
      }
      ghost var before := Contents();
      var sender := Lookup(t.from);
      if t.nonce != sender.nonce {
        return Some(BadNonce);
      }
      var spend := WrapU64(t.amount + t.fee);
      if spend < t.amount {
        return Some(SpendOverflow);
      }
      if sender.balance < spend {
        return Some(InsufficientFunds);
      }
      label Found:
      sender.balance := sender.balance - spend;
      sender.nonce := WrapU64(sender.nonce + 1);
      OneWritten@Found(t.from);
      assert Contents() == Debit(before, t);
      err := Credit(t.to, t.amount);
      CreditOnlyOverflows(Debit(before, t), t.to, t.amount);
    }

    /** Trying a transaction on a clone leaves this table alone, whatever comes of it. */
    method TryOnClone(t: Tx) returns (copy: Table, err: Option<LedgerError>)
      requires Valid()
      ensures Valid() && records == old(records) && Contents() == old(Contents())
      ensures fresh(copy) && fresh(copy.records.Values) && copy.Valid()
      ensures err.None? ==> Ledger.ApplyTx(Contents(), t) == Ok(copy.Contents())
      ensures err.Some? ==> Ledger.ApplyTx(Contents(), t) == Err(err.value)
    {
      copy := Clone();
      err := copy.ApplyTx(t);
    }
  }
}
