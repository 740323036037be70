/** Account balances and nonces: what a transaction and a block do to a map of accounts. */
module Ledger {
  import opened Basics
  import opened Chain

  datatype Account = Account(balance: u64, nonce: u64)

  type Accounts = map<Address, Account>

  datatype LedgerError =
    | Unverified(reason: TxError) | CoinbaseOutsideBlock | BadNonce | SpendOverflow | InsufficientFunds
    | NoCoinbase | FeeOverflow | WrongReward
    | BalanceOverflow // the program panics here

  /** An absent account reads as an empty one. */
  function Get(m: Accounts, a: Address): Account {
    if a in m then m[a] else Account(0, 0)
  }

  /** Looking an account up for writing leaves an empty record behind. */
  function Touch(m: Accounts, a: Address): Accounts {
    m[a := Get(m, a)]
  }

  function Credit(m: Accounts, a: Address, amount: u64): Result<Accounts, LedgerError> {
    if amount == 0 then Ok(m)
    else
      var sum := WrapU64(Get(m, a).balance + amount);
      if sum < Get(m, a).balance then Err(BalanceOverflow)
      else Ok(m[a := Get(m, a).(balance := sum)])
  }

  lemma CreditOnlyOverflows(m: Accounts, a: Address, amount: u64)
    ensures Credit(m, a, amount).Err? ==> Credit(m, a, amount) == Err(BalanceOverflow)
  {
  }

  function CheckTx(m: Accounts, t: Tx): Option<LedgerError> {
    if IsCoinbase(t) then Some(CoinbaseOutsideBlock)
    else if t.nonce != Get(m, t.from).nonce then Some(BadNonce)
    else if WrapU64(t.amount + t.fee) < t.amount then Some(SpendOverflow)
    else if Get(m, t.from).balance < WrapU64(t.amount + t.fee) then Some(InsufficientFunds)
    else None
  }

  function Debit(m: Accounts, t: Tx): Accounts
    requires CheckTx(m, t).None?
  {
    var sender := Get(m, t.from);
    m[t.from := Account(sender.balance - WrapU64(t.amount + t.fee), WrapU64(sender.nonce + 1))]
  }

  function ApplyTx(m: Accounts, t: Tx): Result<Accounts, LedgerError> {
    match CheckTx(m, t)
    case Some(e) => Err(e)
    case None => Credit(Debit(m, t), t.to, t.amount)
  }

  /** The accounts and the fees collected after a run of transactions. */
  datatype Progress = Progress(accounts: Accounts, fees: u64)

  function StepBody(c: Crypto, at: Progress, t: Tx): Result<Progress, LedgerError> {
    match Verify(c, t)
    case Some(e) => Err(Unverified(e))
    case None =>
      match ApplyTx(at.accounts, t)
      case Err(e) => Err(e)
      case Ok(m) =>
        var fees := WrapU64(at.fees + t.fee);
        if fees < t.fee then Err(FeeOverflow) else Ok(Progress(m, fees))
  }

  function ApplyBody(c: Crypto, m: Accounts, txs: seq<Tx>): Result<Progress, LedgerError> {
    if |txs| == 0 then Ok(Progress(m, 0))
    else
      match ApplyBody(c, m, txs[..|txs| - 1])
      case Err(e) => Err(e)
      case Ok(at) => StepBody(c, at, txs[|txs| - 1])
  }

  function ApplyCoinbase(c: Crypto, p: Params, at: Progress, b: Block): Result<Accounts, LedgerError>
    requires p.halvingInterval > 0 && |b.txs| > 0
  {
    var cb := b.txs[0];
    match Verify(c, cb)
    case Some(e) => Err(Unverified(e))
    case None =>
      if cb.amount != WrapU64(RewardAt(p, b.height) + at.fees) then Err(WrongReward)
      else Credit(at.accounts, cb.to, cb.amount)
  }

  /** Transactions first and the coinbase last, so a miner cannot spend its own reward. */
  function ApplyBlock(c: Crypto, p: Params, m: Accounts, b: Block): Result<Accounts, LedgerError>
    requires p.halvingInterval > 0
  {
    if |b.txs| == 0 || !IsCoinbase(b.txs[0]) then Err(NoCoinbase)
    else
      match ApplyBody(c, m, b.txs[1..])
      case Err(e) => Err(e)
      case Ok(at) => ApplyCoinbase(c, p, at, b)
  }

  /** Where a body that fails leaves the accounts: after the transactions before the failing one, whose
      sender may have been given an empty record. An overflow, which no chain reaches, leaves more. */
  ghost predicate LeftAt(c: Crypto, m: Accounts, body: seq<Tx>, after: Accounts, k: nat) {
    && k <= |body| && ApplyBody(c, m, body[..k]).Ok?
    && var at := ApplyBody(c, m, body[..k]).value;
       if k == |body| then after == at.accounts
       else StepBody(c, at, body[k]).Err? && (after == at.accounts || after == Touch(at.accounts, body[k].from))
  }

  lemma LeftAtEnd(c: Crypto, m: Accounts, body: seq<Tx>)
    requires ApplyBody(c, m, body).Ok?
    ensures LeftAt(c, m, body, ApplyBody(c, m, body).value.accounts, |body|)
  {
    assert body[..|body|] == body;
  }

  predicate Overflow(e: LedgerError) {
    e == BalanceOverflow || e == FeeOverflow
  }

  /** The first error met decides the whole run. */
  lemma {:induction false} BodyStopsAtFirstError(c: Crypto, m: Accounts, txs: seq<Tx>, k: nat)
    requires k <= |txs| && ApplyBody(c, m, txs[..k]).Err?
    ensures ApplyBody(c, m, txs) == ApplyBody(c, m, txs[..k])
  {
    if k == |txs| {
      assert txs[..k] == txs;
    } else {
      assert txs[..|txs| - 1][..k] == txs[..k];
      BodyStopsAtFirstError(c, m, txs[..|txs| - 1], k);
    }
  }
}
