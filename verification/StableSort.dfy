/** The stable sort the node borrows from its standard library, by insertion. */
module StableSort {

  /** less(a, b) says a must come before b; elements neither way are ties. */
  ghost predicate WeakOrder<T(!new)>(less: (T, T) -> bool) {
    && (forall a :: !less(a, a))
    && (forall a, b, c :: less(a, b) && less(b, c) ==> less(a, c))
    && (forall a, b, c :: !less(a, b) && !less(b, c) ==> !less(a, c))
  }

  ghost predicate Sorted<T>(less: (T, T) -> bool, s: seq<T>) {
    forall i, j :: 0 <= i < j < |s| ==> !less(s[j], s[i])
  }

  /** Puts x behind everything that need not come after it. */
  function Insert<T>(less: (T, T) -> bool, s: seq<T>, x: T): seq<T> {
    if |s| == 0 then [x]
    else if less(x, s[|s| - 1]) then Insert(less, s[..|s| - 1], x) + [s[|s| - 1]]
    else s + [x]
  }

  function Sort<T>(less: (T, T) -> bool, s: seq<T>): seq<T> {
    if |s| == 0 then [] else Insert(less, Sort(less, s[..|s| - 1]), s[|s| - 1])
  }

  function Filter<T>(keep: T -> bool, s: seq<T>): seq<T> {
    if |s| == 0 then []
    else Filter(keep, s[..|s| - 1]) + (if keep(s[|s| - 1]) then [s[|s| - 1]] else [])
  }

  lemma {:induction false} FilterConcat<T>(keep: T -> bool, a: seq<T>, b: seq<T>)
    ensures Filter(keep, a + b) == Filter(keep, a) + Filter(keep, b)
  {
    if |b| == 0 {
      assert a + b == a;
    } else {
      assert (a + b)[..|a + b| - 1] == a + b[..|b| - 1];
      FilterConcat(keep, a, b[..|b| - 1]);
    }
  }

  lemma {:induction false} FilterMembers<T>(keep: T -> bool, s: seq<T>, x: T)
    ensures x in Filter(keep, s) <==> x in s && keep(x)
  {
    if |s| == 0 {
    } else {
      FilterMembers(keep, s[..|s| - 1], x);
      assert s == s[..|s| - 1] + [s[|s| - 1]];
    }
  }

  function Both<T>(f: T -> bool, g: T -> bool): T -> bool {
    (x: T) => f(x) && g(x)
  }

  lemma {:induction false} FilterAgain<T>(f: T -> bool, g: T -> bool, s: seq<T>)
    ensures Filter(f, Filter(g, s)) == Filter(Both(f, g), s)
  {
    if |s| == 0 {
    } else {
      var last := s[|s| - 1];
      FilterAgain(f, g, s[..|s| - 1]);
      FilterConcat(f, Filter(g, s[..|s| - 1]), if g(last) then [last] else []);
      if g(last) { FilterOne(f, last); }
    }
  }

  lemma FilterOne<T>(f: T -> bool, x: T)
    ensures Filter(f, [x]) == if f(x) then [x] else []
  {
    assert [x][..0] == [];
  }

  lemma {:induction false} InsertMembers<T>(less: (T, T) -> bool, s: seq<T>, x: T)
    ensures multiset(Insert(less, s, x)) == multiset(s) + multiset{x}
  {
    if |s| == 0 || !less(x, s[|s| - 1]) {
    } else {
      InsertMembers(less, s[..|s| - 1], x);
      assert s == s[..|s| - 1] + [s[|s| - 1]];
    }
  }

  lemma {:induction false} SortMembers<T>(less: (T, T) -> bool, s: seq<T>)
    ensures multiset(Sort(less, s)) == multiset(s)
    ensures |Sort(less, s)| == |s|
  {
    if |s| == 0 {
    } else {
      SortMembers(less, s[..|s| - 1]);
      InsertMembers(less, Sort(less, s[..|s| - 1]), s[|s| - 1]);
      assert s == s[..|s| - 1] + [s[|s| - 1]];
    }
    assert |multiset(Sort(less, s))| == |Sort(less, s)|;
  }

  lemma InMultiset<T>(s: seq<T>, x: T)
    ensures x in s <==> x in multiset(s)
  {
  }

  lemma {:induction false} InsertSorted<T(!new)>(less: (T, T) -> bool, s: seq<T>, x: T)
    requires WeakOrder(less) && Sorted(less, s)
    ensures Sorted(less, Insert(less, s, x))
  {
    if |s| == 0 {
    } else if less(x, s[|s| - 1]) {
      var last := s[|s| - 1];
      var r := Insert(less, s[..|s| - 1], x);
      InsertSorted(less, s[..|s| - 1], x);
      InsertMembers(less, s[..|s| - 1], x);
      forall i | 0 <= i < |r| ensures !less(last, r[i]) {
        InMultiset(r, r[i]);
        assert r[i] in multiset(s[..|s| - 1]) + multiset{x};
        if r[i] != x { InMultiset(s[..|s| - 1], r[i]); }
      }
    } else {
      var last := s[|s| - 1];
      forall i | 0 <= i < |s| ensures !less(x, s[i]) {
        if i < |s| - 1 { assert !less(last, s[i]); }
      }
    }
  }

  lemma {:induction false} SortSorted<T(!new)>(less: (T, T) -> bool, s: seq<T>)
    requires WeakOrder(less)
    ensures Sorted(less, Sort(less, s))
  {
    if |s| == 0 {
    } else {
      SortSorted(less, s[..|s| - 1]);
      InsertSorted(less, Sort(less, s[..|s| - 1]), s[|s| - 1]);
    }
  }

  /** Ties keep the order they came in: a class of elements none of which precedes another is left as it was. */
  lemma {:induction false} SortStable<T(!new)>(less: (T, T) -> bool, s: seq<T>, tied: T -> bool)
    requires WeakOrder(less) && forall a, b :: tied(a) && tied(b) ==> !less(a, b)
    ensures Filter(tied, Sort(less, s)) == Filter(tied, s)
  {
    if |s| == 0 {
    } else {
      var before := s[..|s| - 1];
      SortStable(less, before, tied);
      SortSorted(less, before);
      InsertAmongTies(less, Sort(less, before), s[|s| - 1], tied);
    }
  }

  lemma {:induction false} InsertAmongTies<T(!new)>(less: (T, T) -> bool, s: seq<T>, x: T, tied: T -> bool)
    requires WeakOrder(less) && Sorted(less, s) && forall a, b :: tied(a) && tied(b) ==> !less(a, b)
    ensures Filter(tied, Insert(less, s, x)) == if tied(x) then Filter(tied, s) + [x] else Filter(tied, s)
  {
    hide WeakOrder, Sorted, Insert, Filter;
    if |s| == 0 {
      InsertFirst(less, s, x);
      FilterSnoc(tied, s, x);
    } else {
      var init, last := s[..|s| - 1], s[|s| - 1];
      assert s == init + [last];
      InsertSnoc(less, init, last, x);
      if less(x, last) {
        SortedInit(less, s);
        InsertAmongTies(less, init, x, tied);
        FilterSnoc(tied, Insert(less, init, x), last);
        FilterSnoc(tied, init, last);
      } else {
        FilterSnoc(tied, s, x);
      }
    }
  }

  lemma InsertFirst<T>(less: (T, T) -> bool, s: seq<T>, x: T)
    requires |s| == 0
    ensures Insert(less, s, x) == s + [x]
  {
  }

  lemma InsertSnoc<T>(less: (T, T) -> bool, s: seq<T>, last: T, x: T)
    ensures Insert(less, s + [last], x) == if less(x, last) then Insert(less, s, x) + [last] else s + [last] + [x]
  {
    assert (s + [last])[..|s|] == s;
  }

  lemma FilterSnoc<T>(keep: T -> bool, s: seq<T>, x: T)
    ensures Filter(keep, s + [x]) == if keep(x) then Filter(keep, s) + [x] else Filter(keep, s)
    ensures |s| == 0 ==> Filter(keep, s) == []
  {
    assert (s + [x])[..|s|] == s;
  }

  lemma SortedSnoc<T>(less: (T, T) -> bool, s: seq<T>, x: T)
    requires Sorted(less, s) && forall y :: y in s ==> !less(x, y)
    ensures Sorted(less, s + [x])
  {
  }

  lemma SortedInit<T>(less: (T, T) -> bool, s: seq<T>)
    requires Sorted(less, s) && |s| > 0
    ensures Sorted(less, s[..|s| - 1])
  {
  }

  /** Dropping elements before sorting or after it gives the same sequence. */
  lemma {:induction false} FilterSort<T(!new)>(less: (T, T) -> bool, keep: T -> bool, s: seq<T>)
    requires WeakOrder(less)
    ensures Filter(keep, Sort(less, s)) == Sort(less, Filter(keep, s))
  {
    if |s| == 0 {
    } else {
      var before, last := s[..|s| - 1], s[|s| - 1];
      FilterSort(less, keep, before);
      SortSorted(less, before);
      FilterInsert(less, keep, Sort(less, before), last);
      SortAppend(less, Filter(keep, before), last);
      hide WeakOrder, Sorted, Insert;
      assert Sort(less, s) == Insert(less, Sort(less, before), last);
      assert Filter(keep, s) == if keep(last) then Filter(keep, before) + [last] else Filter(keep, before) + [];
      assert Filter(keep, before) + [] == Filter(keep, before);
    }
  }

  lemma SortAppend<T>(less: (T, T) -> bool, s: seq<T>, x: T)
    ensures Sort(less, s + [x]) == Insert(less, Sort(less, s), x)
  {
    assert (s + [x])[..|s + [x]| - 1] == s;
  }

  lemma {:induction false} FilterInsert<T(!new)>(less: (T, T) -> bool, keep: T -> bool, s: seq<T>, x: T)
    requires WeakOrder(less) && Sorted(less, s)
    ensures Filter(keep, Insert(less, s, x))
         == if keep(x) then Insert(less, Filter(keep, s), x) else Filter(keep, s)
  {
    hide WeakOrder, Sorted, Insert, Filter;
    if |s| == 0 {
      InsertFirst(less, s, x);
      FilterSnoc(keep, s, x);
      InsertFirst(less, Filter(keep, s), x);
    } else {
      var init, last := s[..|s| - 1], s[|s| - 1];
      assert s == init + [last];
      InsertSnoc(less, init, last, x);
      if less(x, last) {
        SortedInit(less, s);
        FilterInsert(less, keep, init, x);
        FilterSnoc(keep, Insert(less, init, x), last);
        FilterSnoc(keep, init, last);
        InsertSnoc(less, Filter(keep, init), last, x);
      } else {
        FilterSnoc(keep, s, x);
        InsertAtEnd(less, keep, s, x);
      }
    }
  }

  lemma InsertAtEnd<T(!new)>(less: (T, T) -> bool, keep: T -> bool, s: seq<T>, x: T)
    requires WeakOrder(less) && Sorted(less, s) && |s| > 0 && !less(x, s[|s| - 1])
    ensures Insert(less, Filter(keep, s), x) == Filter(keep, s) + [x]
  {
    var kept := Filter(keep, s);
    if |kept| > 0 {
      var y := kept[|kept| - 1];
      FilterMembers(keep, s, y);
      var i :| 0 <= i < |s| && s[i] == y;
      if i < |s| - 1 { assert !less(s[|s| - 1], s[i]); }
    }
  }
}
