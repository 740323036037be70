/** What a reorg does to pending payments: oldest first, and a sender's run of payments survives it. */
module ReorgPool {
  import opened Basics
  import opened Chain
  import opened Ledger
  import opened Tree
  import opened Conservation
  import opened StableSort
  import opened Nonces
  import opened Mempool
  import opened NodeRules
  import opened Balances

  // ----- in which order candidates are tried -----

  function AtTime(time: i64): Tx -> bool {
    (t: Tx) => t.time == time
  }

  function OfSender(a: Address): Tx -> bool {
    (t: Tx) => t.from == a
  }

  /** The candidates that may be kept, as they were collected. */
  function MayStay(c: Crypto, candidates: seq<Tx>, confirmed: set<Hash>): seq<Tx> {
    Filter(Eligible(c, confirmed), Distinct(c, candidates))
  }

  /** The same in the order they are tried. */
  function Tried(c: Crypto, candidates: seq<Tx>, confirmed: set<Hash>): seq<Tx> {
    Filter(Eligible(c, confirmed), InTimeOrder(c, candidates))
  }

  lemma TriedIsSorted(c: Crypto, candidates: seq<Tx>, confirmed: set<Hash>)
    ensures Tried(c, candidates, confirmed) == Sort(Earlier(), MayStay(c, candidates, confirmed))
  {
    EarlierIsWeakOrder();
    FilterSort(Earlier(), Eligible(c, confirmed), Distinct(c, candidates));
  }

  /** A candidate may stay if it is not confirmed and verifies; and of those collected that are no coinbases every
      id counts once, where it was met first. */
  lemma MayStayMeaning(c: Crypto, before: seq<Tx>, t: Tx, confirmed: set<Hash>)
    ensures MayStay(c, [], confirmed) == []
    ensures MayStay(c, before + [t], confirmed)
         == if t.from != "" && c.txHash(t) !in confirmed && Verify(c, t).None?
               && (forall i :: 0 <= i < |before| && before[i].from != "" ==> c.txHash(before[i]) != c.txHash(t))
            then MayStay(c, before, confirmed) + [t] else MayStay(c, before, confirmed)
  {
    assert (before + [t])[..|before|] == before;
    ListedMeaning(c, before, c.txHash(t));
    var d := Distinct(c, before);
    if t.from != "" && !Listed(c, d, c.txHash(t)) { FilterSnoc(Eligible(c, confirmed), d, t); }
  }

  lemma {:induction false} ListedMeaning(c: Crypto, txs: seq<Tx>, h: Hash)
    ensures Listed(c, Distinct(c, txs), h) <==> exists i :: 0 <= i < |txs| && txs[i].from != "" && c.txHash(txs[i]) == h
  {
    if |txs| == 0 {
    } else {
      var before, t := txs[..|txs| - 1], txs[|txs| - 1];
      ListedMeaning(c, before, h);
      ListedSnoc(c, Distinct(c, before), t, h);
      if i :| 0 <= i < |before| && before[i].from != "" && c.txHash(before[i]) == h { assert txs[i] == before[i]; }
      if i :| 0 <= i < |txs| && txs[i].from != "" && c.txHash(txs[i]) == h {
        if i < |before| { assert before[i] == txs[i]; }
      }
    }
  }

  lemma ListedSnoc(c: Crypto, txs: seq<Tx>, t: Tx, h: Hash)
    ensures Listed(c, txs + [t], h) <==> Listed(c, txs, h) || c.txHash(t) == h
  {
    assert t in txs + [t];
    assert forall u :: u in txs ==> u in txs + [t];
  }

  /** Older candidates are tried first, and those of one time in the order they were collected. */
  lemma OldestFirst(c: Crypto, candidates: seq<Tx>, confirmed: set<Hash>)
    ensures var tried := Tried(c, candidates, confirmed);
            forall i, j :: 0 <= i < j < |tried| ==> tried[i].time <= tried[j].time
    ensures forall time: i64 :: Filter(AtTime(time), Tried(c, candidates, confirmed))
                             == Filter(AtTime(time), MayStay(c, candidates, confirmed))
  {
    EarlierIsWeakOrder();
    TriedIsSorted(c, candidates, confirmed);
    SortSorted(Earlier(), MayStay(c, candidates, confirmed));
    forall time: i64 ensures Filter(AtTime(time), Tried(c, candidates, confirmed))
                          == Filter(AtTime(time), MayStay(c, candidates, confirmed))
    {
      SortStable(Earlier(), MayStay(c, candidates, confirmed), AtTime(time));
    }
  }

  /** So the times in the rebuilt pool never decrease. */
  lemma RebuiltTimes(c: Crypto, m: Accounts, candidates: seq<Tx>, confirmed: set<Hash>)
    ensures var kept := Rebuilt(c, m, candidates, confirmed).kept;
            forall i, j :: 0 <= i < j < |kept| ==> kept[i].time <= kept[j].time
  {
    EarlierIsWeakOrder();
    TriedIsSorted(c, candidates, confirmed);
    SortSorted(Earlier(), MayStay(c, candidates, confirmed));
    KeptSorted(Earlier(), m, Tried(c, candidates, confirmed));
  }

  /** Rolled-back transactions come newest block first, and in their own order within a block. */
  lemma NewestBlockFirst(path: seq<Entry>, e: Entry, above: nat)
    ensures RolledBack(path + [e], above) == if above <= |path| then e.block.txs + RolledBack(path, above) else []
  {
    assert (path + [e])[..|path|] == path;
  }

  // ----- what is kept -----

  /** Each transaction tried is kept exactly if it applies after all those kept before it. */
  lemma EachInTurn(m: Accounts, txs: seq<Tx>, i: nat)
    requires i < |txs|
    ensures Greedy(m, txs[..0]).kept == [] && txs[..|txs|] == txs
    ensures var kept := Greedy(m, txs[..i]).kept;
            Greedy(m, txs[..i + 1]).kept == if ApplyAll(m, kept + [txs[i]]).Ok? then kept + [txs[i]] else kept
  {
    hide ApplyTx;
    var kept := Greedy(m, txs[..i]).kept;
    GreedyApplies(m, txs[..i]);
    assert txs[..i + 1][..i] == txs[..i];
    assert (kept + [txs[i]])[..|kept|] == kept;
  }

  lemma {:induction false} CountIsFilter(a: Address, txs: seq<Tx>)
    ensures |Filter(OfSender(a), txs)| == Count(a, txs)
  {
    if |txs| == 0 {
    } else {
      CountIsFilter(a, txs[..|txs| - 1]);
    }
  }

  /** The sender's nonce moves by one for each of its transactions that is kept. */
  lemma GreedyNonce(m: Accounts, txs: seq<Tx>, a: Address)
    ensures Get(Greedy(m, txs).accounts, a).nonce
         == WrapU64(Get(m, a).nonce + |Filter(OfSender(a), Greedy(m, txs).kept)|)
  {
    hide Get, WrapU64, Greedy, ApplyAll;
    GreedyApplies(m, txs);
    FinalNonce(m, Greedy(m, txs).kept, a);
    CountIsFilter(a, Greedy(m, txs).kept);
  }

  ghost predicate Consecutive(first: nat, txs: seq<Tx>) {
    forall k :: 0 <= k < |txs| ==> txs[k].nonce == first + k
  }

  /** A sender whose transactions carry its next nonces in the order they are tried, and can all be paid for, has
      them all kept, whatever else is tried in between. */
  lemma {:induction false} SenderKept(m: Accounts, txs: seq<Tx>, a: Address)
    requires a != "" && Total(m) < TWO64 && Spent(a, txs) <= Get(m, a).balance
    requires Consecutive(Get(m, a).nonce, Filter(OfSender(a), txs))
    ensures Filter(OfSender(a), Greedy(m, txs).kept) == Filter(OfSender(a), txs)
    ensures Get(Greedy(m, txs).accounts, a).balance >= Get(m, a).balance - Spent(a, txs)
    ensures Total(Greedy(m, txs).accounts) < TWO64
  {
    hide Total, Get, ApplyTx, Filter, Greedy, Spent, Consecutive;
    NothingTried(m, a);
    if |txs| == 0 {
    } else {
      var before, t := txs[..|txs| - 1], txs[|txs| - 1];
      assert txs == before + [t];
      FilterSnoc(OfSender(a), before, t);
      SpentSnoc(a, before, t);
      GreedyStep(m, before, t);
      SenderPrefix(Get(m, a).nonce, Filter(OfSender(a), before), Filter(OfSender(a), txs));
      SenderKept(m, before, a);
      GreedyNonce(m, before, a);
      TriedLast(m, Get(m, a).nonce, Filter(OfSender(a), before), Greedy(m, before), t, a);
      FilterSnoc(OfSender(a), Greedy(m, before).kept, t);
    }
  }

  lemma NothingTried(m: Accounts, a: Address)
    ensures Greedy(m, []) == Pick([], m) && Filter(OfSender(a), []) == [] && Spent(a, []) == 0
  {
  }

  lemma SenderPrefix(first: nat, s: seq<Tx>, t: seq<Tx>)
    requires Consecutive(first, t) && s <= t
    ensures Consecutive(first, s)
    ensures |t| == |s| + 1 ==> t[|s|].nonce == first + |s|
  {
  }

  lemma TriedLast(m: Accounts, first: nat, mine: seq<Tx>, at: Pick, t: Tx, a: Address)
    requires Total(at.accounts) < TWO64 && a != ""
    requires Get(at.accounts, a).nonce == WrapU64(first + |mine|)
    requires t.from == a ==> t.nonce == first + |mine| && t.amount + t.fee <= Get(at.accounts, a).balance
    ensures t.from == a ==> ApplyTx(at.accounts, t).Ok?
    ensures ApplyTx(at.accounts, t).Ok? ==>
              && Total(ApplyTx(at.accounts, t).value) < TWO64
              && Get(ApplyTx(at.accounts, t).value, a).balance
                 >= Get(at.accounts, a).balance - if t.from == a then t.amount + t.fee else 0
  {
    hide Total, Get, ApplyTx;
    TxConserves(at.accounts, t);
    if t.from == a { WrapCases(first + |mine|); }
    if ApplyTx(at.accounts, t).Ok? {
      TxBalances(at.accounts, t, a);
    } else {
      TxRefusedFor(at.accounts, t);
    }
  }

  /** Conversely, if all of a sender's transactions are kept they carried its next nonces in that order. */
  lemma {:induction false} KeptInOrder(m: Accounts, txs: seq<Tx>, a: Address)
    requires Filter(OfSender(a), Greedy(m, txs).kept) == Filter(OfSender(a), txs)
    ensures forall k :: 0 <= k < |Filter(OfSender(a), txs)| ==>
              Filter(OfSender(a), txs)[k].nonce == WrapU64(Get(m, a).nonce + k)
  {
    hide Get, ApplyTx, WrapU64, Filter, Greedy, Spent;
    NothingTried(m, a);
    if |txs| == 0 {
    } else {
      var before, t := txs[..|txs| - 1], txs[|txs| - 1];
      assert txs == before + [t];
      FilterSnoc(OfSender(a), before, t);
      FilterSnoc(OfSender(a), Greedy(m, before).kept, t);
      GreedyStep(m, before, t);
      KeptFewer(m, before, a);
      SameButLast(Filter(OfSender(a), Greedy(m, before).kept), Filter(OfSender(a), before), t, t.from == a,
                  ApplyTx(Greedy(m, before).accounts, t).Ok?);
      KeptInOrder(m, before, a);
      GreedyNonce(m, before, a);
      if t.from == a { AppliedNonce(Greedy(m, before).accounts, t); }
    }
  }

  lemma SameButLast(kept: seq<Tx>, all: seq<Tx>, t: Tx, mine: bool, applied: bool)
    requires |kept| <= |all|
    requires (if mine && applied then kept + [t] else kept) == if mine then all + [t] else all
    ensures kept == all && (mine ==> applied)
  {
    if mine && applied {
      assert kept == (kept + [t])[..|kept|] && all == (all + [t])[..|all|];
    }
  }

  lemma AppliedNonce(m: Accounts, t: Tx)
    ensures ApplyTx(m, t).Ok? ==> t.nonce == Get(m, t.from).nonce
  {
    TxApplies(m, t);
  }

  lemma {:induction false} KeptFewer(m: Accounts, txs: seq<Tx>, a: Address)
    ensures |Filter(OfSender(a), Greedy(m, txs).kept)| <= |Filter(OfSender(a), txs)|
  {
    hide ApplyTx;
    if |txs| == 0 {
    } else {
      var before, t := txs[..|txs| - 1], txs[|txs| - 1];
      KeptFewer(m, before, a);
      assert txs == before + [t];
      FilterSnoc(OfSender(a), before, t);
      FilterSnoc(OfSender(a), Greedy(m, before).kept, t);
    }
  }

  // ----- the law for one sender -----

  /** A sender's candidates that may stay, oldest first. */
  function SenderRun(c: Crypto, candidates: seq<Tx>, confirmed: set<Hash>, a: Address): seq<Tx> {
    Sort(Earlier(), Filter(OfSender(a), MayStay(c, candidates, confirmed)))
  }

  lemma RunIsTried(c: Crypto, candidates: seq<Tx>, confirmed: set<Hash>, a: Address)
    ensures Filter(OfSender(a), Tried(c, candidates, confirmed)) == SenderRun(c, candidates, confirmed, a)
  {
    EarlierIsWeakOrder();
    TriedIsSorted(c, candidates, confirmed);
    FilterSort(Earlier(), OfSender(a), MayStay(c, candidates, confirmed));
  }

  /** A sender who can pay for all its candidates that may stay finds all of them in the rebuilt pool exactly if,
      oldest first and those of one time as they were collected, they carry its next nonces. */
  lemma SenderSurvives(c: Crypto, m: Accounts, candidates: seq<Tx>, confirmed: set<Hash>, a: Address)
    requires a != "" && Total(m) < TWO64
    requires Spent(a, MayStay(c, candidates, confirmed)) <= Get(m, a).balance
    requires Get(m, a).nonce + |SenderRun(c, candidates, confirmed, a)| <= TWO64
    ensures var run, kept := SenderRun(c, candidates, confirmed, a), Rebuilt(c, m, candidates, confirmed).kept;
            && (Filter(OfSender(a), kept) == run <==>
                  forall k :: 0 <= k < |run| ==> run[k].nonce == Get(m, a).nonce + k)
            && (Filter(OfSender(a), kept) == run ==> forall t :: t in run ==> t in kept)
  {
    hide Spent, Get, Total, Greedy, Tried, MayStay;
    var run, kept := SenderRun(c, candidates, confirmed, a), Rebuilt(c, m, candidates, confirmed).kept;
    var tried := Tried(c, candidates, confirmed);
    RunIsTried(c, candidates, confirmed, a);
    TriedIsSorted(c, candidates, confirmed);
    SpentSorted(a, MayStay(c, candidates, confirmed));
    TriedRebuilt(c, m, candidates, confirmed);
    if Consecutive(Get(m, a).nonce, run) {
      SenderKept(m, tried, a);
    }
    if Filter(OfSender(a), kept) == run {
      KeptInOrder(m, tried, a);
      forall k | 0 <= k < |run| ensures run[k].nonce == Get(m, a).nonce + k { WrapSmall(Get(m, a).nonce + k); }
      forall t | t in run ensures t in kept { FilterMembers(OfSender(a), kept, t); }
    }
  }

  lemma TriedRebuilt(c: Crypto, m: Accounts, candidates: seq<Tx>, confirmed: set<Hash>)
    ensures Rebuilt(c, m, candidates, confirmed) == Greedy(m, Tried(c, candidates, confirmed))
  {
  }

  lemma SpentSnoc(a: Address, txs: seq<Tx>, t: Tx)
    ensures Spent(a, txs + [t]) == Spent(a, txs) + if t.from == a then t.amount + t.fee else 0
  {
    assert (txs + [t])[..|txs|] == txs;
  }

  lemma {:induction false} SpentInsert(a: Address, txs: seq<Tx>, t: Tx)
    ensures Spent(a, Insert(Earlier(), txs, t)) == Spent(a, txs) + if t.from == a then t.amount + t.fee else 0
  {
    if |txs| == 0 {
      SpentSnoc(a, txs, t);
    } else {
      var before, last := txs[..|txs| - 1], txs[|txs| - 1];
      SpentInsert(a, before, t);
      SpentSnoc(a, Insert(Earlier(), before, t), last);
      SpentSnoc(a, txs, t);
    }
  }

  lemma {:induction false} SpentSorted(a: Address, txs: seq<Tx>)
    ensures Spent(a, Sort(Earlier(), txs)) == Spent(a, txs)
  {
    if |txs| == 0 {
    } else {
      var before := txs[..|txs| - 1];
      SpentSorted(a, before);
      SpentInsert(a, Sort(Earlier(), before), txs[|txs| - 1]);
    }
  }

  /** In particular none of a sender's payments is lost whose times rise with their nonces, from whichever blocks
      and in whichever order they were collected. */
  lemma RisingTimesSurvive(c: Crypto, m: Accounts, candidates: seq<Tx>, confirmed: set<Hash>, a: Address, run: seq<Tx>)
    requires a != "" && Total(m) < TWO64
    requires Spent(a, MayStay(c, candidates, confirmed)) <= Get(m, a).balance
    requires Get(m, a).nonce + |run| <= TWO64
    requires multiset(run) == multiset(Filter(OfSender(a), MayStay(c, candidates, confirmed)))
    requires forall k :: 0 <= k < |run| ==> run[k].nonce == Get(m, a).nonce + k
    requires forall i, j :: 0 <= i < j < |run| ==> run[i].time < run[j].time
    ensures Filter(OfSender(a), Rebuilt(c, m, candidates, confirmed).kept) == run
    ensures forall t :: t in run ==> t in Rebuilt(c, m, candidates, confirmed).kept
  {
    hide Spent, Get, Total, Rebuilt, MayStay;
    var mine := Filter(OfSender(a), MayStay(c, candidates, confirmed));
    EarlierIsWeakOrder();
    SortSorted(Earlier(), mine);
    SortMembers(Earlier(), mine);
    SortedIsRun(Sort(Earlier(), mine), run);
    SenderSurvives(c, m, candidates, confirmed, a);
  }

  /** A sequence in time order with the members of a strictly rising one is that one. */
  lemma {:induction false} SortedIsRun(s: seq<Tx>, run: seq<Tx>)
    requires Sorted(Earlier(), s) && multiset(s) == multiset(run)
    requires forall i, j :: 0 <= i < j < |run| ==> run[i].time < run[j].time
    ensures s == run
  {
    assert |s| == |multiset(s)| == |multiset(run)| == |run|;
    if |s| == 0 {
    } else {
      LastOfBoth(s, run);
      var init, front := s[..|s| - 1], run[..|run| - 1];
      assert s == init + [s[|s| - 1]] && run == front + [s[|s| - 1]];
      SameWithoutLast(init, front, s[|s| - 1]);
      SortedInit(Earlier(), s);
      SortedIsRun(init, front);
    }
  }

  lemma LastOfBoth(s: seq<Tx>, run: seq<Tx>)
    requires |s| == |run| > 0 && Sorted(Earlier(), s) && multiset(s) == multiset(run)
    requires forall i, j :: 0 <= i < j < |run| ==> run[i].time < run[j].time
    ensures s[|s| - 1] == run[|run| - 1]
  {
    var x, y := s[|s| - 1], run[|run| - 1];
    assert x in multiset(run) && y in multiset(s);
    var i :| 0 <= i < |run| && run[i] == x;
    var j :| 0 <= j < |s| && s[j] == y;
    assert i < |run| - 1 ==> x.time < y.time;
    assert j < |s| - 1 ==> !Earlier()(x, y);
  }

  lemma SameWithoutLast(s: seq<Tx>, t: seq<Tx>, x: Tx)
    requires multiset(s + [x]) == multiset(t + [x])
    ensures multiset(s) == multiset(t)
  {
    assert multiset(s) == multiset(s + [x]) - multiset{x};
    assert multiset(t) == multiset(t + [x]) - multiset{x};
  }
}
