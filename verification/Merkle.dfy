/** The Merkle root: the level loop, the tree it computes, what it binds and where it does not. */
module Merkle {
  import opened Basics
  import opened Chain

  // ----- the loop -----

  /** One pass: pad an odd level with its last hash, then hash neighbours together. */
  method PairUp(c: Crypto, level: seq<Hash>) returns (next: seq<Hash>)
    requires |level| > 1
    ensures next == NextLevel(c, level)
  {
    hide NextLevel;
    var padded := level;
    if |level| % 2 == 1 {
      padded := padded + [padded[|padded| - 1]];
    }
    next := [];
    var i := 0;
    while i < |padded|
      invariant 0 <= i <= |padded| && i == 2 * |next|
      invariant Paired(c, padded, next)
    {
      next := next + [c.pairHash(padded[i], padded[i + 1])];
      i := i + 2;
    }
    PaddingIsFine(c, level);
    PairedIsNext(c, padded, next);
  }

  ghost predicate Paired(c: Crypto, level: seq<Hash>, next: seq<Hash>) {
    && 2 * |next| <= |level|
    && forall j :: 0 <= j < |next| ==> next[j] == c.pairHash(level[2 * j], level[2 * j + 1])
  }

  lemma PairedIsNext(c: Crypto, level: seq<Hash>, next: seq<Hash>)
    requires |level| > 0 && Paired(c, level, next) && 2 * |next| == |level|
    ensures next == NextLevel(c, level)
  {
    hide NextLevel;
    forall j | 0 <= j < |next| ensures next[j] == NextLevel(c, level)[j] {
      NextLevelAt(c, level, j);
    }
  }

  method ComputeRoot(c: Crypto, txs: seq<Tx>) returns (root: Hash)
    ensures root == MerkleRoot(c, txs)
  {
    if |txs| == 0 {
      return 0;
    }
    var level := [];
    for i := 0 to |txs|
      invariant level == TxHashes(c, txs)[..i]
    {
      level := level + [c.txHash(txs[i])];
    }
    assert level == TxHashes(c, txs);
    while |level| > 1
      invariant |level| > 0 && RootOf(c, level) == MerkleRoot(c, txs)
      decreases |level|
    {
      level := PairUp(c, level);
    }
    root := level[0];
  }

  /** Repeating the last hash of an odd level gives the same next level. */
  lemma {:induction false} PaddingIsFine(c: Crypto, level: seq<Hash>)
    requires |level| > 0
    ensures |level| % 2 == 1 ==> NextLevel(c, level + [level[|level| - 1]]) == NextLevel(c, level)
    decreases |level|
  {
    var padded := level + [level[|level| - 1]];
    if |level| == 1 {
      assert padded[2..] == [];
    } else if |level| % 2 == 1 {
      assert padded[2..] == level[2..] + [level[|level| - 1]];
      PaddingIsFine(c, level[2..]);
    }
  }

  // ----- the tree -----

  /** How many nodes a tree over n leaves has k levels up. */
  function Width(n: nat, k: nat): nat
    decreases k
  {
    if k == 0 then n else Width((n + 1) / 2, k - 1)
  }

  function Last(i: nat, n: nat): nat
    requires n > 0
  {
    if i < n then i else n - 1
  }

  /** Node i, k levels above the leaves: the hash of its two children,
      the last one standing in for a missing right one. */
  function Node(c: Crypto, leaves: seq<Hash>, k: nat, i: nat): Hash
    requires |leaves| > 0 && i < Width(|leaves|, k)
    decreases k
  {
    if k == 0 then leaves[i]
    else
      WidthStep(|leaves|, k, i);
      c.pairHash(Node(c, leaves, k - 1, 2 * i), Node(c, leaves, k - 1, Last(2 * i + 1, Width(|leaves|, k - 1))))
  }

  lemma {:induction false} WidthStep(n: nat, k: nat, i: nat)
    requires n > 0 && k > 0 && i < Width(n, k)
    ensures Width(n, k - 1) > 0 && 2 * i < Width(n, k - 1)
    ensures Width(n, k) == (Width(n, k - 1) + 1) / 2
    decreases k
  {
    if k <= 1 {
    } else {
      WidthStep((n + 1) / 2, k - 1, i);
    }
  }

  /** How many times a level can be halved before one node is left. */
  function Depth(n: nat): (d: nat)
    requires n > 0
    ensures Width(n, d) == 1
    decreases n
  {
    if n == 1 then 0 else 1 + Depth((n + 1) / 2)
  }

  lemma {:induction false} NextLevelAt(c: Crypto, level: seq<Hash>, i: nat)
    requires |level| > 0 && i < (|level| + 1) / 2
    ensures NextLevel(c, level)[i] == c.pairHash(level[2 * i], level[Last(2 * i + 1, |level|)])
    decreases |level|
  {
    if i == 0 {
    } else {
      NextLevelAt(c, level[2..], i - 1);
    }
  }

  /** A node over the next level is the node one level higher over this one. */
  lemma {:induction false} NodeShift(c: Crypto, level: seq<Hash>, k: nat, i: nat)
    requires |level| > 0 && i < Width(|level|, k + 1)
    ensures Node(c, NextLevel(c, level), k, i) == Node(c, level, k + 1, i)
    decreases k
  {
    if k == 0 {
      NextLevelAt(c, level, i);
    } else {
      var next := NextLevel(c, level);
      WidthStep(|next|, k, i);
      WidthStep(|level|, k + 1, i);
      NodeShift(c, level, k - 1, 2 * i);
      NodeShift(c, level, k - 1, Last(2 * i + 1, Width(|next|, k - 1)));
    }
  }

  /** The level loop computes the top of the tree. */
  lemma {:induction false} RootIsTop(c: Crypto, leaves: seq<Hash>)
    requires |leaves| > 0
    ensures RootOf(c, leaves) == Node(c, leaves, Depth(|leaves|), 0)
    decreases |leaves|
  {
    if |leaves| <= 1 {
    } else {
      var next := NextLevel(c, leaves);
      RootIsTop(c, next);
      NodeShift(c, leaves, Depth(|next|), 0);
    }
  }

  // ----- what a root binds -----

  ghost predicate PairHashInjective(c: Crypto) {
    forall a, b, x, y :: c.pairHash(a, b) == c.pairHash(x, y) ==> a == x && b == y
  }

  lemma {:induction false} LevelBinds(c: Crypto, s: seq<Hash>, t: seq<Hash>)
    requires PairHashInjective(c) && |s| == |t| && NextLevel(c, s) == NextLevel(c, t)
    ensures s == t
  {
    if |s| == 1 {
      assert NextLevel(c, s)[0] == NextLevel(c, t)[0];
    } else if |s| > 1 {
      var x, y := NextLevel(c, s), NextLevel(c, t);
      assert x[0] == y[0];
      assert x[1..] == NextLevel(c, s[2..]) && y[1..] == NextLevel(c, t[2..]);
      LevelBinds(c, s[2..], t[2..]);
      assert s == [s[0], s[1]] + s[2..] && t == [t[0], t[1]] + t[2..];
    }
  }

  lemma {:induction false} RootBindsHashes(c: Crypto, s: seq<Hash>, t: seq<Hash>)
    requires PairHashInjective(c) && |s| == |t| > 0 && RootOf(c, s) == RootOf(c, t)
    ensures s == t
    decreases |s|
  {
    hide PairHashInjective;
    if |s| == 1 {
      assert s == [s[0]] && t == [t[0]];
    } else {
      RootBindsHashes(c, NextLevel(c, s), NextLevel(c, t));
      LevelBinds(c, s, t);
    }
  }

  /** Equally long transaction lists with the same root hold the same transactions in the same order. */
  lemma RootBinds(c: Crypto, s: seq<Tx>, t: seq<Tx>)
    requires PairHashInjective(c) && TxIdsDistinct(c) && |s| == |t| && MerkleRoot(c, s) == MerkleRoot(c, t)
    ensures forall i :: 0 <= i < |s| ==> SameTx(s[i], t[i])
  {
    if |s| > 0 {
      hide PairHashInjective, SameTx, RootOf;
      RootBindsHashes(c, TxHashes(c, s), TxHashes(c, t));
      forall i | 0 <= i < |s| ensures SameTx(s[i], t[i]) {
        assert TxHashes(c, s)[i] == TxHashes(c, t)[i];
      }
    }
  }

  // ----- which lists share a root -----

  /** The leaves below a node once every missing right child has its left neighbour standing in. */
  function Leaves<T>(s: seq<T>, k: nat, i: nat): (r: seq<T>)
    requires |s| > 0 && i < Width(|s|, k)
    ensures |r| == Pow2(k)
    decreases k
  {
    if k == 0 then [s[i]]
    else
      WidthStep(|s|, k, i);
      Leaves(s, k - 1, 2 * i) + Leaves(s, k - 1, Last(2 * i + 1, Width(|s|, k - 1)))
  }

  /** A list filled up to a full binary tree. */
  function Completed<T>(s: seq<T>): (r: seq<T>)
    ensures if |s| == 0 then r == [] else |r| == Pow2(Depth(|s|))
  {
    if |s| == 0 then [] else Leaves(s, Depth(|s|), 0)
  }

  function TreeHash(c: Crypto, full: seq<Hash>, k: nat): Hash
    requires |full| == Pow2(k)
    decreases k
  {
    if k == 0 then full[0]
    else
      var half := Pow2(k - 1);
      c.pairHash(TreeHash(c, full[..half], k - 1), TreeHash(c, full[half..], k - 1))
  }

  lemma {:induction false} NodeIsTreeHash(c: Crypto, s: seq<Hash>, k: nat, i: nat)
    requires |s| > 0 && i < Width(|s|, k)
    ensures Node(c, s, k, i) == TreeHash(c, Leaves(s, k, i), k)
    decreases k
  {
    if k == 0 {
    } else {
      WidthStep(|s|, k, i);
      var right := Last(2 * i + 1, Width(|s|, k - 1));
      NodeIsTreeHash(c, s, k - 1, 2 * i);
      NodeIsTreeHash(c, s, k - 1, right);
      var a, b := Leaves(s, k - 1, 2 * i), Leaves(s, k - 1, right);
      assert (a + b)[..Pow2(k - 1)] == a && (a + b)[Pow2(k - 1)..] == b;
    }
  }

  /** What a root of a non-empty list is: the hash of its completed tree. */
  lemma RootIsTreeHash(c: Crypto, s: seq<Hash>)
    requires |s| > 0
    ensures RootOf(c, s) == TreeHash(c, Completed(s), Depth(|s|))
  {
    hide RootOf, Node, TreeHash, Leaves, Depth;
    RootIsTop(c, s);
    NodeIsTreeHash(c, s, Depth(|s|), 0);
  }

  /** Digests as good as they can be: pairs are told apart from each other, from ids and from zero, and
      transactions have one id exactly if their encodings agree. */
  ghost predicate IdealRoots(c: Crypto) {
    && PairHashInjective(c) && TxIdsDistinct(c) && IdsRespect(c)
    && (forall t, a, b :: c.txHash(t) != c.pairHash(a, b))
    && (forall t :: c.txHash(t) != 0)
    && (forall a, b :: c.pairHash(a, b) != 0)
  }

  ghost predicate IdsRespect(c: Crypto) {
    forall s, t :: SameTx(s, t) ==> c.txHash(s) == c.txHash(t)
  }

  ghost predicate NoPairs(c: Crypto, s: seq<Hash>) {
    forall i, a, b :: 0 <= i < |s| ==> s[i] != c.pairHash(a, b)
  }

  /** Without pairs among the leaves a tree's hash gives away its depth and its leaves. */
  lemma {:induction false} TreeHashBinds(c: Crypto, a: seq<Hash>, k: nat, b: seq<Hash>, m: nat)
    requires PairHashInjective(c) && |a| == Pow2(k) && |b| == Pow2(m) && NoPairs(c, a) && NoPairs(c, b)
    requires TreeHash(c, a, k) == TreeHash(c, b, m)
    ensures k == m && a == b
    decreases k
  {
    if k == 0 || m == 0 {
      LeafIsNoTree(c, a, k, b, m);
      LeafIsNoTree(c, b, m, a, k);
    } else {
      var i, j := Pow2(k - 1), Pow2(m - 1);
      TreeHashBinds(c, a[..i], k - 1, b[..j], m - 1);
      TreeHashBinds(c, a[i..], k - 1, b[j..], m - 1);
      assert a == a[..i] + a[i..] && b == b[..j] + b[j..];
    }
  }

  lemma LeafIsNoTree(c: Crypto, a: seq<Hash>, k: nat, b: seq<Hash>, m: nat)
    requires |a| == Pow2(k) && |b| == Pow2(m) && NoPairs(c, a) && TreeHash(c, a, k) == TreeHash(c, b, m) && k == 0
    ensures m == 0 && a == b
  {
    assert Pow2(0) == 1;
  }

  lemma {:induction false} LeavesMap(c: Crypto, txs: seq<Tx>, k: nat, i: nat)
    requires |txs| > 0 && i < Width(|txs|, k)
    ensures Leaves(TxHashes(c, txs), k, i) == TxHashes(c, Leaves(txs, k, i))
    decreases k
  {
    if k == 0 {
    } else {
      WidthStep(|txs|, k, i);
      var right := Last(2 * i + 1, Width(|txs|, k - 1));
      LeavesMap(c, txs, k - 1, 2 * i);
      LeavesMap(c, txs, k - 1, right);
      HashesConcat(c, Leaves(txs, k - 1, 2 * i), Leaves(txs, k - 1, right));
    }
  }

  lemma HashesConcat(c: Crypto, a: seq<Tx>, b: seq<Tx>)
    ensures TxHashes(c, a + b) == TxHashes(c, a) + TxHashes(c, b)
  {
  }

  lemma CompletedMap(c: Crypto, txs: seq<Tx>)
    ensures Completed(TxHashes(c, txs)) == TxHashes(c, Completed(txs))
  {
    hide TxHashes, Leaves, Depth;
    if |txs| > 0 { LeavesMap(c, txs, Depth(|txs|), 0); } else { NoHashes(c); }
  }

  lemma NoHashes(c: Crypto)
    ensures TxHashes(c, []) == []
  {
  }

  ghost predicate SameList(s: seq<Tx>, t: seq<Tx>) {
    |s| == |t| && forall i :: 0 <= i < |s| ==> SameTx(s[i], t[i])
  }

  lemma SameHashes(c: Crypto, s: seq<Tx>, t: seq<Tx>)
    requires TxIdsDistinct(c) && IdsRespect(c)
    ensures TxHashes(c, s) == TxHashes(c, t) <==> SameList(s, t)
  {
    hide SameTx;
    if TxHashes(c, s) == TxHashes(c, t) {
      assert forall i :: 0 <= i < |s| ==> TxHashes(c, s)[i] == TxHashes(c, t)[i];
    }
  }

  /** Exactly which lists share a root: those that fill up to the same full tree. */
  lemma RootsShared(c: Crypto, s: seq<Tx>, t: seq<Tx>)
    requires IdealRoots(c)
    ensures MerkleRoot(c, s) == MerkleRoot(c, t) <==> SameList(Completed(s), Completed(t))
  {
    hide PairHashInjective, SameTx, RootOf, Depth, TxHashes, Completed, TreeHash, NoPairs;
    var x, y := TxHashes(c, s), TxHashes(c, t);
    CompletedMap(c, s);
    CompletedMap(c, t);
    SameHashes(c, Completed(s), Completed(t));
    if |s| > 0 { RootIsTreeHash(c, x); LeavesApart(c, s); }
    if |t| > 0 { RootIsTreeHash(c, y); LeavesApart(c, t); }
    if |s| > 0 && |t| > 0 {
      if MerkleRoot(c, s) == MerkleRoot(c, t) {
        TreeHashBinds(c, Completed(x), Depth(|s|), Completed(y), Depth(|t|));
      }
      if |Completed(s)| == |Completed(t)| {
        Pow2Injective(Depth(|s|), Depth(|t|));
      }
    }
  }

  /** The leaves of a completed list are ids: neither pairs nor, as a tree, zero. */
  lemma LeavesApart(c: Crypto, s: seq<Tx>)
    requires IdealRoots(c) && |s| > 0
    ensures NoPairs(c, TxHashes(c, Completed(s))) && TreeHash(c, TxHashes(c, Completed(s)), Depth(|s|)) != 0
  {
    hide PairHashInjective, SameTx, TxIdsDistinct, IdsRespect, Depth, Completed;
    assert Pow2(Depth(|s|)) > 0;
  }

  lemma {:induction false} Pow2Injective(k: nat, m: nat)
    requires Pow2(k) == Pow2(m)
    ensures k == m
  {
    if k == 0 || m == 0 {
    } else {
      Pow2Injective(k - 1, m - 1);
    }
  }

  /** The length is not bound: repeating the last transaction of an odd list longer than one keeps the root. */
  lemma RepeatedLast(c: Crypto, txs: seq<Tx>)
    requires |txs| > 1 && |txs| % 2 == 1
    ensures MerkleRoot(c, txs + [txs[|txs| - 1]]) == MerkleRoot(c, txs)
  {
    var hs := TxHashes(c, txs);
    assert TxHashes(c, txs + [txs[|txs| - 1]]) == hs + [hs[|hs| - 1]];
    PaddingIsFine(c, hs);
  }

  /** For a single transaction it does not: its root is its own hash. */
  lemma RepeatedOnly(c: Crypto, t: Tx)
    ensures MerkleRoot(c, [t]) == c.txHash(t)
    ensures MerkleRoot(c, [t, t]) == c.pairHash(c.txHash(t), c.txHash(t))
  {
    assert TxHashes(c, [t]) == [c.txHash(t)];
    var pair := c.pairHash(c.txHash(t), c.txHash(t));
    assert TxHashes(c, [t, t]) == [c.txHash(t), c.txHash(t)];
    assert NextLevel(c, [c.txHash(t), c.txHash(t)]) == [pair];
    assert RootOf(c, [pair]) == pair;
  }

  /** The smallest trees: a list of two is hashed as a pair, and of three the last is paired with itself. */
  lemma SmallRoots(c: Crypto, x: Tx, y: Tx, z: Tx)
    ensures MerkleRoot(c, [x]) == c.txHash(x)
    ensures MerkleRoot(c, [x, y]) == c.pairHash(c.txHash(x), c.txHash(y))
    ensures MerkleRoot(c, [x, y, z])
         == c.pairHash(c.pairHash(c.txHash(x), c.txHash(y)), c.pairHash(c.txHash(z), c.txHash(z)))
  {
    var a, b, d := c.txHash(x), c.txHash(y), c.txHash(z);
    RepeatedOnly(c, x);
    assert TxHashes(c, [x, y]) == [a, b] && TxHashes(c, [x, y, z]) == [a, b, d];
    var p, q := c.pairHash(a, b), c.pairHash(d, d);
    TwoLeaves(c, a, b);
    TwoLeaves(c, p, q);
    assert [a, b, d][2..] == [d];
    assert NextLevel(c, [a, b, d]) == [p, q];
    assert RootOf(c, [a, b, d]) == RootOf(c, [p, q]);
  }

  lemma TwoLeaves(c: Crypto, a: Hash, b: Hash)
    ensures RootOf(c, [a, b]) == c.pairHash(a, b)
  {
    var pair := c.pairHash(a, b);
    assert [a, b][2..] == [];
    assert NextLevel(c, [a, b]) == [pair];
    assert RootOf(c, [pair]) == pair;
  }
}
