/** Why nodes agree: the heaviest valid chain depends only on which state-valid blocks are stored. */
module Convergence {
  import opened Chain
  import opened Tree

  /** Both trees store the same state-valid blocks; what else they store does not matter. */
  ghost predicate SameValid(c: Crypto, p: Params, t: Blocks, u: Blocks)
    requires p.halvingInterval > 0
  {
    && Linked(t) && Linked(u)
    && (forall h :: h in t && StateValid(c, p, t, h) ==> h in u && StateValid(c, p, u, h) && t[h].block == u[h].block)
    && (forall h :: h in u && StateValid(c, p, u, h) ==> h in t && StateValid(c, p, t, h))
  }

  lemma SameValidTwoWays(c: Crypto, p: Params, t: Blocks, u: Blocks)
    requires p.halvingInterval > 0 && SameValid(c, p, t, u)
    ensures SameValid(c, p, u, t)
  {
    hide StateValid, Linked;
  }

  /** A state-valid block has the same entry and the same history in both. */
  lemma {:induction false} SameHistory(c: Crypto, p: Params, t: Blocks, u: Blocks, h: Hash)
    requires p.halvingInterval > 0 && TreeOk(c, p, t) && TreeOk(c, p, u) && SameValid(c, p, t, u)
    requires h in t && StateValid(c, p, t, h)
    ensures h in u && t[h] == u[h] && Path(t, h) == Path(u, h)
    decreases t[h].block.height
  {
    hide FollowsRules, Replay, BlockHash, GenesisHash;
    assert EntryOk(c, p, t, h) && EntryOk(c, p, u, h) && LinkedAt(t, h) && LinkedAt(u, h);
    if t[h].block.height == 0 {
    } else {
      var prev := t[h].block.prevHash;
      OnPathStep(t, h, prev);
      OnPathStep(t, prev, prev);
      AncestorsValid(c, p, t, h, prev);
      SameHistory(c, p, t, u, prev);
    }
  }

  /** The best blocks of two trees that store the same state-valid blocks are one block, if they are valid. */
  lemma SameBest(c: Crypto, p: Params, t: Blocks, u: Blocks, e: Entry, f: Entry)
    requires p.halvingInterval > 0 && TreeOk(c, p, t) && TreeOk(c, p, u) && SameValid(c, p, t, u)
    requires Best(t, e) && StateValid(c, p, t, e.hash) && Best(u, f) && StateValid(c, p, u, f.hash)
    ensures e == f && Path(t, e.hash) == Path(u, f.hash)
  {
    hide StateValid, Path, TreeOk;
    SameValidTwoWays(c, p, t, u);
    SameHistory(c, p, t, u, e.hash);
    SameHistory(c, p, u, t, f.hash);
    hide SameValid, Linked;
    assert e.hash != f.hash ==> Better(e, f) && Better(f, e);
  }
}
