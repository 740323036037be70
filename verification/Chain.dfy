/** Transactions, blocks and the consensus rules that look at one block and its parent. */
module Chain {
  import opened Basics

  /** A digest, read as the big-endian number that both the target test and the
      lexical comparison of equal-length hex strings order by. */
  type Hash = nat
  type Address = string

  /** The empty sender reserved for coinbase transactions. */
  const COINBASE_ADDRESS: Address := ""
  const PUBLIC_KEY_SIZE := 32

  datatype Params = Params(
    genesisTime: i64,
    initialReward: u64,
    halvingInterval: u64,
    blocksPerRetarget: u64,
    targetBlockTime: i64,
    maxTxsPerBlock: int,
    maxFutureTime: i64)

  /** A nil and an empty byte slice differ for the coinbase check, so both exist here. */
  datatype Tx = Tx(
    from: Address,
    to: Address,
    amount: u64,
    fee: u64,
    nonce: u64,
    time: i64,
    pubKey: Option<Bytes>,
    sig: Option<Bytes>)

  datatype Block = Block(
    height: u64,
    prevHash: Hash,
    time: i64,
    difficulty: u64,
    miner: Address,
    extraNonce: u64,
    merkleRoot: Hash,
    nonce: u64,
    txs: seq<Tx>)

  /** The digests and the signature and address checks, as arbitrary deterministic functions. */
  datatype Crypto = Crypto(
    headerHash: Block -> Hash,
    txHash: Tx -> Hash,
    pairHash: (Hash, Hash) -> Hash,
    addressValid: Address -> bool,
    addressOf: Bytes -> Address,
    signatureValid: (Bytes, Tx, Bytes) -> bool)

  /** The header carries every field but the transactions, so the hash cannot depend on those. */
  function BlockHash(c: Crypto, b: Block): Hash {
    c.headerHash(b.(txs := []))
  }

  // ----- transactions -----

  datatype TxError =
    | CoinbaseSigned | CoinbaseFee | CoinbaseRecipient | EmptyCoinbase
    | InvalidFrom | InvalidTo | EmptyTx | BadPubKey | PubKeyMismatch | BadSignature

  predicate IsCoinbase(t: Tx) {
    t.from == COINBASE_ADDRESS
  }

  function Verify(c: Crypto, t: Tx): Option<TxError> {
    if IsCoinbase(t) then
      if t.pubKey.Some? || t.sig.Some? then Some(CoinbaseSigned)
      else if t.fee != 0 then Some(CoinbaseFee)
      else if t.to == COINBASE_ADDRESS || !c.addressValid(t.to) then Some(CoinbaseRecipient)
      else if t.amount == 0 then Some(EmptyCoinbase)
      else None
    else if !c.addressValid(t.from) then Some(InvalidFrom)
    else if !c.addressValid(t.to) then Some(InvalidTo)
    else if t.amount == 0 && t.fee == 0 then Some(EmptyTx)
    else if t.pubKey.None? || |t.pubKey.value| != PUBLIC_KEY_SIZE then Some(BadPubKey)
    else if c.addressOf(t.pubKey.value) != t.from then Some(PubKeyMismatch)
    else if t.sig.None? || !c.signatureValid(t.pubKey.value, t.(sig := None), t.sig.value) then Some(BadSignature)
    else None
  }

  /** A payment verifies exactly if both addresses are valid, it moves or burns something, its key has 32 octets and
      hashes to the sender, and the signature is good over the transaction without it. A coinbase verifies exactly
      if it is unsigned, costs no fee and pays something to a valid address. */
  lemma VerifyMeaning(c: Crypto, t: Tx)
    ensures t.from != "" ==>
              (Verify(c, t).None? <==>
                && c.addressValid(t.from) && c.addressValid(t.to) && (t.amount != 0 || t.fee != 0)
                && t.pubKey.Some? && |t.pubKey.value| == 32 && c.addressOf(t.pubKey.value) == t.from
                && t.sig.Some? && c.signatureValid(t.pubKey.value, t.(sig := None), t.sig.value))
    ensures t.from == "" ==>
              (Verify(c, t).None? <==>
                && t.pubKey.None? && t.sig.None? && t.fee == 0 && t.amount != 0
                && t.to != "" && c.addressValid(t.to))
  {
  }

  /** Two transactions with the same encoding: a nil slice and an empty one are written alike. */
  predicate SameTx(s: Tx, t: Tx) {
    && s.from == t.from && s.to == t.to && s.amount == t.amount && s.fee == t.fee
    && s.nonce == t.nonce && s.time == t.time
    && Written(s.pubKey) == Written(t.pubKey) && Written(s.sig) == Written(t.sig)
  }

  function Written(b: Option<Bytes>): Bytes {
    if b.Some? then b.value else []
  }

  /** Transaction ids identify transactions. */
  ghost predicate TxIdsDistinct(c: Crypto) {
    forall s, t :: c.txHash(s) == c.txHash(t) ==> SameTx(s, t)
  }

  // ----- rewards and proof of work -----

  function RewardAt(p: Params, height: u64): u64
    requires p.halvingInterval > 0
  {
    var halvings := height / p.halvingInterval;
    if halvings >= 64 then 0 else Halved(p.initialReward, halvings)
  }

  /** A logical right shift. */
  function Halved(n: u64, times: nat): u64 {
    QuotientShrinks(n, Pow2(times));
    Quotient(n, Pow2(times))
  }

  lemma QuotientShrinks(n: nat, d: nat)
    requires d > 0
    ensures Quotient(n, d) <= n
  {
    QuotientProduct(n, d);
    ProductAtLeast(Quotient(n, d), d);
  }

  lemma QuotientProduct(n: nat, d: nat)
    requires d > 0
    ensures Quotient(n, d) * d <= n
  {
  }

  lemma ProductAtLeast(q: nat, d: nat)
    requires d > 0
    ensures q <= q * d
  {
  }

  const MAX_TARGET: nat := 0xFFFFFFFF_FFFFFFFF_FFFFFFFF_FFFFFFFF_FFFFFFFF_FFFFFFFF_FFFFFFFF_FFFFFFFF

  function Target(difficulty: u64): nat {
    MAX_TARGET / (if difficulty == 0 then 1 else difficulty)
  }

  predicate MeetsTarget(c: Crypto, b: Block) {
    b.difficulty != 0 && BlockHash(c, b) < Target(b.difficulty)
  }

  /** The retarget step, with the int64 wrap-around of each product and difference. */
  function NextDifficulty(p: Params, tip: Option<Block>, anchor: Option<Block>): u64 {
    if tip.None? then 1
    else
      var t := tip.value;
      if p.blocksPerRetarget == 0 || anchor.None? || WrapU64(t.height + 1) < p.blocksPerRetarget
         || WrapU64(t.height + 1) % p.blocksPerRetarget != 0
      then t.difficulty
      else Retarget(p, t.difficulty, WrapI64(t.time - anchor.value.time))
  }

  function Expected(p: Params): (r: i64)
    ensures r > 0
  {
    var e := WrapI64(p.targetBlockTime * WrapI64(p.blocksPerRetarget));
    if e <= 0 then 1 else e
  }

  /** Division of a big integer that is not negative. */
  function Quotient(n: nat, d: nat): nat
    requires d > 0
  {
    n / d
  }

  function Retarget(p: Params, difficulty: u64, actual: i64): u64 {
    var expected := Expected(p);
    var d :=
      if actual <= 0 || WrapI64(actual * 4) < expected then difficulty * 4
      else if actual > WrapI64(4 * expected) then difficulty / 4
      else Quotient(difficulty * expected, actual);
    if d <= 0 then 1 else if d >= TWO64 then TWO64 - 1 else d
  }

  // ----- merkle root -----

  function TxHashes(c: Crypto, txs: seq<Tx>): (hs: seq<Hash>)
    ensures |hs| == |txs|
    ensures forall i :: 0 <= i < |txs| ==> hs[i] == c.txHash(txs[i])
  {
    seq(|txs|, i requires 0 <= i < |txs| => c.txHash(txs[i]))
  }

  /** One level up: neighbours are hashed together, the last one with itself when it has none. */
  function NextLevel(c: Crypto, level: seq<Hash>): (next: seq<Hash>)
    ensures |next| == (|level| + 1) / 2
  {
    if |level| == 0 then []
    else if |level| == 1 then [c.pairHash(level[0], level[0])]
    else [c.pairHash(level[0], level[1])] + NextLevel(c, level[2..])
  }

  function RootOf(c: Crypto, level: seq<Hash>): Hash
    requires |level| > 0
    decreases |level|
  {
    if |level| == 1 then level[0] else RootOf(c, NextLevel(c, level))
  }

  function MerkleRoot(c: Crypto, txs: seq<Tx>): Hash {
    if |txs| == 0 then 0 else RootOf(c, TxHashes(c, txs))
  }

  // ----- blocks -----

  datatype BlockError =
    | NoParent | BadHeight | PrevMismatch | TimeNotAfterParent | TimeInFuture
    | FirstNotCoinbase | TooManyTxs | ExtraCoinbase | InvalidMiner | MerkleMismatch

  predicate HasCoinbase(txs: seq<Tx>) {
    exists t :: t in txs && IsCoinbase(t)
  }

  function ValidateBasic(c: Crypto, p: Params, b: Block, parent: Option<Block>, now: i64): Option<BlockError> {
    if parent.None? then Some(NoParent)
    else if b.height != WrapU64(parent.value.height + 1) then Some(BadHeight)
    else if b.prevHash != BlockHash(c, parent.value) then Some(PrevMismatch)
    else if b.time <= parent.value.time then Some(TimeNotAfterParent)
    else if b.time > WrapI64(now + p.maxFutureTime) then Some(TimeInFuture)
    else if |b.txs| == 0 || !IsCoinbase(b.txs[0]) then Some(FirstNotCoinbase)
    else if |b.txs| > p.maxTxsPerBlock then Some(TooManyTxs)
    else if HasCoinbase(b.txs[1..]) then Some(ExtraCoinbase)
    else if b.miner == COINBASE_ADDRESS || !c.addressValid(b.miner) then Some(InvalidMiner)
    else if MerkleRoot(c, b.txs) != b.merkleRoot then Some(MerkleMismatch)
    else None
  }

  /** Whether the clock is the only thing that could still refuse the block. */
  predicate ClockAllows(p: Params, b: Block, now: i64) {
    b.time <= WrapI64(now + p.maxFutureTime)
  }

  /** The part of ValidateBasic that does not read the clock. */
  predicate WellFormed(c: Crypto, p: Params, b: Block, parent: Block) {
    && b.height == parent.height + 1
    && b.prevHash == BlockHash(c, parent)
    && b.time > parent.time
    && |b.txs| > 0 && IsCoinbase(b.txs[0])
    && |b.txs| <= p.maxTxsPerBlock
    && !HasCoinbase(b.txs[1..])
    && b.miner != COINBASE_ADDRESS && c.addressValid(b.miner)
    && MerkleRoot(c, b.txs) == b.merkleRoot
  }

  /** A block that is not at height 0 passes ValidateBasic exactly when it is well formed
      on its parent and the clock allows its timestamp. */
  lemma ValidateBasicMeaning(c: Crypto, p: Params, b: Block, parent: Block, now: i64)
    requires b.height != 0
    ensures ValidateBasic(c, p, b, Some(parent), now).None?
            <==> WellFormed(c, p, b, parent) && ClockAllows(p, b, now)
  {
    if parent.height + 1 == TWO64 {
      assert WrapU64(parent.height + 1) == 0;
    } else {
      assert WrapU64(parent.height + 1) == parent.height + 1;
    }
  }

  function Genesis(p: Params): Block {
    Block(0, 0, p.genesisTime, 1, COINBASE_ADDRESS, 0, 0, 0, [])
  }

  function GenesisHash(c: Crypto, p: Params): Hash {
    BlockHash(c, Genesis(p))
  }
}
