/** A block and everything built on it, also while a removal is half done and parents are missing. */
module Subtree {
  import opened Basics
  import opened Chain
  import opened Tree

  /** Heights still follow the stored parents; some parents may be gone. */
  ghost predicate Ranked(t: Blocks) {
    forall h :: h in t ==> RankedAt(t, h)
  }

  predicate RankedAt(t: Blocks, h: Hash)
    requires h in t
  {
    t[h].block.prevHash in t && t[h].block.height > 0 ==>
      t[t[h].block.prevHash].block.height + 1 == t[h].block.height
  }

  /** Following parents from y leads to x. */
  ghost predicate Below(t: Blocks, y: Hash, x: Hash)
    requires Ranked(t)
    decreases if y in t then t[y].block.height + 1 else 0
  {
    y == x || (y in t && t[y].block.height > 0 && (assert RankedAt(t, y); Below(t, t[y].block.prevHash, x)))
  }

  ghost function Descendants(t: Blocks, x: Hash): set<Hash>
    requires Ranked(t)
  {
    set y | y in t && Below(t, y, x)
  }

  lemma LinkedIsRanked(t: Blocks)
    requires Linked(t)
    ensures Ranked(t)
  {
    forall h | h in t ensures RankedAt(t, h) {
      assert LinkedAt(t, h);
    }
  }

  lemma RankedWithout(t: Blocks, gone: set<Hash>)
    requires Ranked(t)
    ensures Ranked(t - gone)
  {
    forall h | h in t - gone ensures RankedAt(t - gone, h) {
      assert RankedAt(t, h);
    }
  }

  /** On a closed tree the descendants of x are the blocks with x on their path. */
  lemma {:induction false} BelowIsOnPath(t: Blocks, y: Hash, x: Hash)
    requires Linked(t) && Ranked(t) && y in t && x in t
    ensures Below(t, y, x) <==> OnPath(t, y, x)
    decreases t[y].block.height
  {
    assert LinkedAt(t, y);
    OnPathStep(t, y, x);
    if t[y].block.height == 0 {
      if OnPath(t, y, x) { assert LinkedAt(t, x); }
    } else {
      BelowIsOnPath(t, t[y].block.prevHash, x);
    }
  }

  lemma {:induction false} BelowHeight(t: Blocks, y: Hash, x: Hash)
    requires Ranked(t) && y in t && x in t && Below(t, y, x)
    ensures t[y].block.height >= t[x].block.height
    ensures t[y].block.height == t[x].block.height ==> y == x
    decreases t[y].block.height
  {
    if y == x {
    } else {
      assert RankedAt(t, y);
      var prev := t[y].block.prevHash;
      if prev in t { BelowHeight(t, prev, x); }
    }
  }

  lemma {:induction false} BelowMonotone(t: Blocks, u: Blocks, y: Hash, x: Hash)
    requires Ranked(t) && Ranked(u) && Agree(t, u) && t.Keys <= u.Keys && Below(t, y, x)
    ensures Below(u, y, x)
    decreases if y in t then t[y].block.height + 1 else 0
  {
    if y == x {
    } else {
      assert RankedAt(t, y) && RankedAt(u, y);
      BelowMonotone(t, u, t[y].block.prevHash, x);
    }
  }

  /** Siblings have disjoint subtrees. */
  lemma {:induction false} SiblingsDisjoint(t: Blocks, y: Hash, a: Hash, b: Hash)
    requires Ranked(t) && a in t && b in t && t[a].block.height == t[b].block.height
    requires y in t && Below(t, y, a) && Below(t, y, b)
    ensures a == b
    decreases t[y].block.height
  {
    BelowHeight(t, y, a);
    BelowHeight(t, y, b);
    if y == a || y == b {
    } else {
      assert RankedAt(t, y);
      SiblingsDisjoint(t, t[y].block.prevHash, a, b);
    }
  }

  /** What is removed once x itself and the subtrees of the children in done are gone. */
  ghost function RemovedSoFar(t: Blocks, x: Hash, done: set<Hash>): set<Hash>
    requires Ranked(t)
  {
    set y | y in t && (y == x || exists d :: d in done && Below(t, y, d))
  }

  ghost predicate ProperChildren(t: Blocks, x: Hash, done: set<Hash>) {
    x in t && forall d :: d in done ==> d in t && t[d].block.prevHash == x && t[d].block.height == t[x].block.height + 1
  }

  ghost predicate ChildrenOf(t: Blocks, x: Hash, children: seq<Hash>) {
    && x in t
    && (forall y :: y in children ==> y in t && t[y].block.prevHash == x && t[y].block.height == t[x].block.height + 1)
    && (forall y :: y in t && t[y].block.prevHash == x && t[y].block.height == t[x].block.height + 1 ==> y in children)
  }

  /** The first i of a list of children. */
  ghost function Firsts(children: seq<Hash>, i: nat): set<Hash>
    requires i <= |children|
  {
    set y | y in children[..i]
  }

  lemma FirstsNone(children: seq<Hash>)
    ensures Firsts(children, 0) == {}
  {
  }

  lemma FirstsStep(children: seq<Hash>, i: nat)
    requires NoDuplicates(children) && i < |children|
    ensures Firsts(children, i + 1) == Firsts(children, i) + {children[i]} && children[i] !in Firsts(children, i)
  {
    assert children[..i + 1] == children[..i] + [children[i]];
  }

  lemma ProperFirsts(t: Blocks, x: Hash, children: seq<Hash>, i: nat)
    requires ChildrenOf(t, x, children) && i <= |children|
    ensures ProperChildren(t, x, Firsts(children, i))
    ensures i == |children| ==>
              forall d :: d in t && t[d].block.prevHash == x && t[d].block.height == t[x].block.height + 1
                ==> d in Firsts(children, i)
  {
    assert i == |children| ==> children[..i] == children;
  }

  lemma RemovedNone(t: Blocks, x: Hash)
    requires Ranked(t) && x in t
    ensures RemovedSoFar(t, x, {}) == {x}
  {
  }

  /** The part of a child's subtree met half way through a removal is the whole of it. */
  lemma {:induction false} SubtreeSurvives(t: Blocks, x: Hash, done: set<Hash>, child: Hash, y: Hash)
    requires Ranked(t) && ProperChildren(t, x, done + {child}) && child !in done
    requires y in t && Below(t, y, child)
    ensures Ranked(t - RemovedSoFar(t, x, done))
    ensures y in t - RemovedSoFar(t, x, done) && Below(t - RemovedSoFar(t, x, done), y, child)
    decreases t[y].block.height
  {
    var gone := RemovedSoFar(t, x, done);
    RankedWithout(t, gone);
    BelowHeight(t, y, child);
    forall d | d in done && Below(t, y, d) ensures false {
      SiblingsDisjoint(t, y, child, d);
    }
    if y == child {
    } else {
      assert RankedAt(t, y);
      var prev := t[y].block.prevHash;
      SubtreeSurvives(t, x, done, child, prev);
      assert RankedAt(t - gone, y);
    }
  }

  /** Removing one more child's subtree from what is left. */
  lemma RemoveNextChild(t: Blocks, x: Hash, done: set<Hash>, child: Hash)
    requires Ranked(t) && ProperChildren(t, x, done + {child}) && child !in done
    ensures Ranked(t - RemovedSoFar(t, x, done)) && child in t - RemovedSoFar(t, x, done)
    ensures x in RemovedSoFar(t, x, done)
    ensures RemovedSoFar(t, x, done + {child})
         == RemovedSoFar(t, x, done) + Descendants(t - RemovedSoFar(t, x, done), child)
  {
    var gone := RemovedSoFar(t, x, done);
    RankedWithout(t, gone);
    SubtreeSurvives(t, x, done, child, child);
    forall y | y in t && Below(t, y, child) ensures y in t - gone && Below(t - gone, y, child) {
      SubtreeSurvives(t, x, done, child, y);
    }
    forall y | y in t - gone && Below(t - gone, y, child) ensures Below(t, y, child) {
      BelowMonotone(t - gone, t, y, child);
    }
  }

  /** A proper descendant lies below one of the children. */
  lemma {:induction false} BelowSomeChild(t: Blocks, y: Hash, x: Hash) returns (d: Hash)
    requires Ranked(t) && y in t && x in t && y != x && Below(t, y, x)
    ensures d in t && t[d].block.prevHash == x && t[d].block.height == t[x].block.height + 1 && Below(t, y, d)
    decreases t[y].block.height
  {
    assert RankedAt(t, y);
    var prev := t[y].block.prevHash;
    if prev == x {
      d := y;
    } else {
      d := BelowSomeChild(t, prev, x);
    }
  }

  /** With every child done, exactly the subtree is gone. */
  lemma AllChildrenDone(t: Blocks, x: Hash, done: set<Hash>)
    requires Ranked(t) && ProperChildren(t, x, done)
    requires forall d :: d in t && t[d].block.prevHash == x && t[d].block.height == t[x].block.height + 1 ==> d in done
    ensures RemovedSoFar(t, x, done) == Descendants(t, x)
  {
    forall y | y in t && y != x && Below(t, y, x) ensures exists d :: d in done && Below(t, y, d) {
      var d := BelowSomeChild(t, y, x);
    }
    forall y, d | y in t && d in done && Below(t, y, d) ensures Below(t, y, x) {
      assert Below(t, d, x);
      BelowTransitive(t, y, d, x);
    }
  }

  lemma {:induction false} BelowTransitive(t: Blocks, y: Hash, d: Hash, x: Hash)
    requires Ranked(t) && Below(t, y, d) && Below(t, d, x)
    ensures Below(t, y, x)
    decreases if y in t then t[y].block.height + 1 else 0
  {
    if y == d {
    } else {
      assert RankedAt(t, y);
      BelowTransitive(t, t[y].block.prevHash, d, x);
    }
  }
}
