/** Blocks of one hash: a header does not fix the transactions, and rejection goes by the header's hash. */
module BlockTwins {
  import opened Basics
  import opened Chain
  import opened Ledger
  import opened Tree
  import opened Mempool
  import opened Merkle
  import opened NodeRules

  /** The block with an empty public key on its coinbase, which is written like none. */
  function KeyedTwin(b: Block): Block
    requires |b.txs| > 0
  {
    b.(txs := b.txs[0 := b.txs[0].(pubKey := Some([]))])
  }

  /** The block with its last transaction repeated. */
  function RepeatedTwin(b: Block): Block
    requires |b.txs| > 0
  {
    b.(txs := b.txs + [b.txs[|b.txs| - 1]])
  }

  /** A block that differs only in its transactions, from a list with the same root, has the same hash and
      obeys the rules if its list starts with its only coinbase and is not too long. */
  lemma SameHashSameRules(c: Crypto, p: Params, path: seq<Entry>, b: Block, txs: seq<Tx>)
    requires FollowsRules(c, p, path, b) && MerkleRoot(c, txs) == b.merkleRoot
    requires 0 < |txs| <= p.maxTxsPerBlock && IsCoinbase(txs[0]) && !HasCoinbase(txs[1..])
    ensures BlockHash(c, b.(txs := txs)) == BlockHash(c, b) && FollowsRules(c, p, path, b.(txs := txs))
  {
    hide NextDifficulty, AnchorOf, MerkleRoot, HasCoinbase, Target;
    assert b.(txs := txs).(txs := []) == b.(txs := []);
  }

  /** Every rule-abiding block without a key on its coinbase has a twin of the same hash that obeys the rules
      and whose state is invalid on any accounts. */
  lemma KeyedTwinIsInvalid(c: Crypto, p: Params, path: seq<Entry>, b: Block, m: Accounts)
    requires p.halvingInterval > 0 && IdsRespect(c)
    requires FollowsRules(c, p, path, b) && b.txs[0].pubKey.None?
    ensures KeyedTwin(b) != b && BlockHash(c, KeyedTwin(b)) == BlockHash(c, b)
    ensures FollowsRules(c, p, path, KeyedTwin(b)) && ApplyBlock(c, p, m, KeyedTwin(b)).Err?
  {
    hide NextDifficulty, AnchorOf, Target, RewardAt, ApplyBody, RootOf;
    var d := KeyedTwin(b);
    assert d.txs[0] != b.txs[0];
    assert SameTx(d.txs[0], b.txs[0]);
    assert TxHashes(c, d.txs) == TxHashes(c, b.txs);
    assert d.txs[1..] == b.txs[1..];
    SameHashSameRules(c, p, path, b, d.txs);
  }

  /** So has every rule-abiding block with an odd number of transactions above one and room for one more. */
  lemma RepeatedTwinIsInvalid(c: Crypto, p: Params, path: seq<Entry>, b: Block, m: Accounts)
    requires p.halvingInterval > 0 && FollowsRules(c, p, path, b)
    requires 1 < |b.txs| < p.maxTxsPerBlock && |b.txs| % 2 == 1
    ensures RepeatedTwin(b) != b && BlockHash(c, RepeatedTwin(b)) == BlockHash(c, b)
    ensures FollowsRules(c, p, path, RepeatedTwin(b)) && ApplyBlock(c, p, m, RepeatedTwin(b)).Err?
  {
    hide NextDifficulty, AnchorOf, Target, RewardAt, ApplyBody, RootOf, ApplyCoinbase;
    var last, d := b.txs[|b.txs| - 1], RepeatedTwin(b);
    RepeatedLast(c, b.txs);
    assert |d.txs| != |b.txs|;
    assert d.txs[1..] == b.txs[1..] + [last];
    assert last == b.txs[1..][|b.txs| - 2];
    SameHashSameRules(c, p, path, b, d.txs);
    TwiceFails(c, m, b.txs[1..]);
  }

  /** A body that ends in the same transaction twice never applies: the first time uses up its nonce. */
  lemma TwiceFails(c: Crypto, m: Accounts, body: seq<Tx>)
    requires |body| > 0
    ensures ApplyBody(c, m, body + [body[|body| - 1]]).Err?
  {
    var last, twice := body[|body| - 1], body + [body[|body| - 1]];
    assert twice[..|twice| - 1] == body;
    if ApplyBody(c, m, body).Ok? {
      var at := ApplyBody(c, m, body[..|body| - 1]).value;
      NonceMoved(at.accounts, last);
    }
  }

  /** A rejected hash can name a state-valid block: a valid block and its twin go by one name, so while the
      name is rejected, for whichever of the two, the valid one is refused as previously rejected. */
  lemma RejectionNamesTwins(c: Crypto, p: Params, path: seq<Entry>, b: Block, t: Blocks, r: set<Hash>, now: i64)
    requires p.halvingInterval > 0 && IdsRespect(c) && Linked(t) && |path| > 0 && FollowsRules(c, p, path, b)
    requires Replay(c, p, path + [EntryFor(c, path[|path| - 1], b)]).Ok?
    ensures |b.txs| > 0
    ensures var d := KeyedTwin(b);
            && d != b && BlockHash(c, d) == BlockHash(c, b) && FollowsRules(c, p, path, d)
            && Replay(c, p, path + [EntryFor(c, path[|path| - 1], d)]).Err?
    ensures BlockHash(c, b) in r && BlockHash(c, b) !in t ==>
              Verdict(c, p, t, r, PathOrNothing(t, b.prevHash), b, now) == Some(PreviouslyRejected)
    ensures b.prevHash in t && Path(t, b.prevHash) == path && ClockAllows(p, b, now) ==>
              (Verdict(c, p, t, r, PathOrNothing(t, b.prevHash), b, now).Some? <==>
                BlockHash(c, b) in r && BlockHash(c, b) !in t)
  {
    hide BlockHash, ApplyBlock, FollowsRules;
    GoodHeight(c, p, path, b);
    var e, f := EntryFor(c, path[|path| - 1], b), EntryFor(c, path[|path| - 1], KeyedTwin(b));
    assert (path + [e])[..|path|] == path && (path + [f])[..|path|] == path;
    CoinbaseUnsigned(c, p, Replay(c, p, path).value, b);
    KeyedTwinIsInvalid(c, p, path, b, Replay(c, p, path).value);
    if b.prevHash in t && Path(t, b.prevHash) == path && ClockAllows(p, b, now) {
      GoodBlockVerdict(c, p, t, r, b, now);
    }
  }

  lemma CoinbaseUnsigned(c: Crypto, p: Params, m: Accounts, b: Block)
    requires p.halvingInterval > 0 && ApplyBlock(c, p, m, b).Ok?
    ensures |b.txs| > 0 && b.txs[0].pubKey.None?
  {
    hide ApplyBody, RewardAt;
  }

  /** A block that beats the tip is afterwards stored or rejected, as its history is valid or not. */
  lemma KeptOrRejected(c: Crypto, p: Params, t: Blocks, r: set<Hash>, tip: Entry, b: Block, u: Blocks, s: set<Hash>,
                       extra: set<Hash>)
    requires p.halvingInterval > 0 && Linked(t) && b.prevHash in t && Better(EntryFor(c, t[b.prevHash], b), tip)
    requires KeptByMerit(c, p, t, tip, b, u) && StoredOrInvalid(c, p, t, u, s, b) && Evolves(c, p, t, r, u, s, extra)
    ensures var valid := Replay(c, p, Path(t, b.prevHash) + [EntryFor(c, t[b.prevHash], b)]).Ok?;
            (BlockHash(c, b) in u <==> valid) && (BlockHash(c, b) in s <==> !valid)
  {
    hide BlockHash, Replay, Path, Linked, Better;
  }

  lemma RejectedVerdict(c: Crypto, p: Params, t: Blocks, r: set<Hash>, path: seq<Entry>, b: Block, now: i64)
    requires BlockHash(c, b) in r && BlockHash(c, b) !in t && (b.prevHash in t ==> |path| > 0)
    ensures Verdict(c, p, t, r, path, b, now) == Some(PreviouslyRejected)
  {
  }
}
