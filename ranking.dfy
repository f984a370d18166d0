/** The ordering both routes apply to their results before anything else:
    `results.sort((a, b) => a.emissions.total_kg - b.emissions.total_kg)`.
    `Array.prototype.sort` is stable, so results with equal totals keep
    their input order; the library sort is modelled by a stable insertion
    sort on values. */
module Ranking {
  import opened Values
  import opened LcaEngine

  /** A vehicle together with its lifecycle result, as both routes build it. */
  datatype Scored = Scored(vehicle: Vehicle, emissions: Emissions)

  function TotalOf(x: Scored): int
  {
    x.emissions.totalKg
  }

  /** Ascending by total. */
  predicate Sorted(s: seq<Scored>)
  {
    forall i, j | 0 <= i < j < |s| :: TotalOf(s[i]) <= TotalOf(s[j])
  }

  /** The results with total `k`, in their order of appearance. */
  function WithTotal(s: seq<Scored>, k: int): (r: seq<Scored>)
    ensures |r| <= |s|
  {
    if s == [] then []
    else (if TotalOf(s[0]) == k then [s[0]] else []) + WithTotal(s[1..], k)
  }

  /** The sum of all totals (`reduce((s, v) => s + v.emissions.total_kg, 0)`). */
  function SumOfTotals(s: seq<Scored>): int
  {
    if s == [] then 0 else TotalOf(s[0]) + SumOfTotals(s[1..])
  }

  /** Places `x` after every element of the sorted `t` whose total is not
      larger than its own. */
  function Insert(t: seq<Scored>, x: Scored): (r: seq<Scored>)
    ensures |r| == |t| + 1
  {
    if t == [] then [x]
    else if TotalOf(x) < TotalOf(t[0]) then [x] + t
    else [t[0]] + Insert(t[1..], x)
  }

  /** The stable sort by total: each element in turn is inserted after the
      elements before it with the same total. */
  function SortByTotal(s: seq<Scored>): (r: seq<Scored>)
    ensures |r| == |s|
  {
    if s == [] then [] else Insert(SortByTotal(s[..|s| - 1]), s[|s| - 1])
  }

  lemma {:induction false} InsertKeepsSorted(t: seq<Scored>, x: Scored)
    requires Sorted(t)
    ensures Sorted(Insert(t, x))
    ensures Insert(t, x) != [] && (t != [] ==> Insert(t, x)[0] == if TotalOf(x) < TotalOf(t[0]) then x else t[0])
    decreases |t|
  {
    if t == [] {
    } else if TotalOf(x) < TotalOf(t[0]) {
      AtLeastOfSorted(t);
      ConsSorted(x, t);
    } else {
      SortedTail(t);
      InsertKeepsSorted(t[1..], x);
      AtLeastOfSorted(t);
      InsertAtLeast(t[1..], x, TotalOf(t[0]));
      ConsSorted(t[0], Insert(t[1..], x));
    }
  }

  /** Every total of `s` is at least `lo`. */
  predicate AtLeast(s: seq<Scored>, lo: int)
  {
    forall i | 0 <= i < |s| :: lo <= TotalOf(s[i])
  }

  lemma AtLeastOfSorted(t: seq<Scored>)
    requires Sorted(t) && t != []
    ensures AtLeast(t[1..], TotalOf(t[0])) && AtLeast(t, TotalOf(t[0]))
  {
    forall i | 0 <= i < |t[1..]|
      ensures TotalOf(t[0]) <= TotalOf(t[1..][i])
    {
      assert t[1..][i] == t[i + 1];
    }
  }

  lemma ConsSorted(y: Scored, r: seq<Scored>)
    requires Sorted(r) && AtLeast(r, TotalOf(y))
    ensures Sorted([y] + r)
  {
    forall i, j | 0 <= i < j < |[y] + r|
      ensures TotalOf(([y] + r)[i]) <= TotalOf(([y] + r)[j])
    {
      assert ([y] + r)[j] == r[j - 1];
      if i > 0 {
        assert ([y] + r)[i] == r[i - 1];
      }
    }
  }

  lemma {:induction false} InsertAtLeast(t: seq<Scored>, x: Scored, lo: int)
    requires AtLeast(t, lo) && lo <= TotalOf(x)
    ensures AtLeast(Insert(t, x), lo)
    decreases |t|
  {
    if t != [] && TotalOf(x) >= TotalOf(t[0]) {
      assert AtLeast(t[1..], lo) by {
        forall i | 0 <= i < |t[1..]|
          ensures lo <= TotalOf(t[1..][i])
        {
          assert t[1..][i] == t[i + 1];
        }
      }
      InsertAtLeast(t[1..], x, lo);
      var r := Insert(t[1..], x);
      forall i | 0 <= i < |[t[0]] + r|
        ensures lo <= TotalOf(([t[0]] + r)[i])
      {
        if i > 0 {
          assert ([t[0]] + r)[i] == r[i - 1];
        }
      }
    } else if t != [] {
      forall i | 0 <= i < |[x] + t|
        ensures lo <= TotalOf(([x] + t)[i])
      {
        if i > 0 {
          assert ([x] + t)[i] == t[i - 1];
        }
      }
    }
  }

  lemma {:induction false} InsertElements(t: seq<Scored>, x: Scored)
    ensures multiset(Insert(t, x)) == multiset(t) + multiset{x}
    decreases |t|
  {
    if t != [] && TotalOf(x) >= TotalOf(t[0]) {
      InsertElements(t[1..], x);
      assert t == [t[0]] + t[1..];
    }
  }

  /** The sorted results are ascending by total. */
  lemma {:induction false} SortIsSorted(s: seq<Scored>)
    ensures Sorted(SortByTotal(s))
  {
    if s != [] {
      SortIsSorted(s[..|s| - 1]);
      InsertKeepsSorted(SortByTotal(s[..|s| - 1]), s[|s| - 1]);
    }
  }

  /** Sorting neither loses nor adds a result. */
  lemma {:induction false} SortIsPermutation(s: seq<Scored>)
    ensures multiset(SortByTotal(s)) == multiset(s)
  {
    if s != [] {
      SortIsPermutation(s[..|s| - 1]);
      InsertElements(SortByTotal(s[..|s| - 1]), s[|s| - 1]);
      assert s == s[..|s| - 1] + [s[|s| - 1]];
    }
  }

  lemma {:induction false} WithTotalOfConcat(a: seq<Scored>, b: seq<Scored>, k: int)
    ensures WithTotal(a + b, k) == WithTotal(a, k) + WithTotal(b, k)
    decreases |a|
  {
    if a != [] {
      WithTotalOfConcat(a[1..], b, k);
      assert (a + b)[1..] == a[1..] + b;
    } else {
      assert a + b == b;
    }
  }

  /** Every element of a sorted sequence that starts above `k` is above `k`. */
  lemma {:induction false} NoneWithSmallerTotal(t: seq<Scored>, k: int)
    requires Sorted(t) && (t != [] ==> k < TotalOf(t[0]))
    ensures WithTotal(t, k) == []
    decreases |t|
  {
    if t != [] {
      NoneWithSmallerTotal(t[1..], k);
    }
  }

  /** Inserting `x` puts it after the elements with its own total. */
  lemma {:induction false} InsertIsStable(t: seq<Scored>, x: Scored, k: int)
    requires Sorted(t)
    ensures WithTotal(Insert(t, x), k) == WithTotal(t, k) + (if TotalOf(x) == k then [x] else [])
    decreases |t|
  {
    if t == [] {
    } else if TotalOf(x) < TotalOf(t[0]) {
      ConsWithTotal(x, t, k);
      if TotalOf(x) == k {
        NoneWithSmallerTotal(t, k);
      }
    } else {
      SortedTail(t);
      InsertIsStable(t[1..], x, k);
      ConsWithTotal(t[0], Insert(t[1..], x), k);
      ConsWithTotal(t[0], t[1..], k);
      assert [t[0]] + t[1..] == t;
    }
  }

  lemma ConsWithTotal(x: Scored, t: seq<Scored>, k: int)
    ensures WithTotal([x] + t, k) == (if TotalOf(x) == k then [x] else []) + WithTotal(t, k)
  {
    assert ([x] + t)[0] == x;
    assert ([x] + t)[1..] == t;
  }

  lemma SortedTail(t: seq<Scored>)
    requires Sorted(t) && t != []
    ensures Sorted(t[1..])
  {
    forall i, j | 0 <= i < j < |t[1..]|
      ensures TotalOf(t[1..][i]) <= TotalOf(t[1..][j])
    {
      assert t[1..][i] == t[i + 1] && t[1..][j] == t[j + 1];
    }
  }

  /** The sort is stable: for every total, the results with that total
      appear in the sorted list in the order they had before. */
  lemma {:induction false} SortIsStable(s: seq<Scored>, k: int)
    ensures WithTotal(SortByTotal(s), k) == WithTotal(s, k)
  {
    if s != [] {
      var init := s[..|s| - 1];
      var last := s[|s| - 1];
      SortIsStable(init, k);
      SortIsSorted(init);
      InsertIsStable(SortByTotal(init), last, k);
      assert s == init + [last];
      WithTotalOfConcat(init, [last], k);
      assert [last][1..] == [];
    }
  }

  lemma {:induction false} SumOfConcat(a: seq<Scored>, b: seq<Scored>)
    ensures SumOfTotals(a + b) == SumOfTotals(a) + SumOfTotals(b)
    decreases |a|
  {
    if a != [] {
      SumOfConcat(a[1..], b);
      assert (a + b)[1..] == a[1..] + b;
    } else {
      assert a + b == b;
    }
  }

  lemma {:induction false} InsertAddsTotal(t: seq<Scored>, x: Scored)
    ensures SumOfTotals(Insert(t, x)) == SumOfTotals(t) + TotalOf(x)
    decreases |t|
  {
    if t != [] && TotalOf(x) >= TotalOf(t[0]) {
      InsertAddsTotal(t[1..], x);
    }
  }

  /** Sorting does not change the sum of the totals. */
  lemma {:induction false} SortKeepsSum(s: seq<Scored>)
    ensures SumOfTotals(SortByTotal(s)) == SumOfTotals(s)
  {
    if s != [] {
      SortKeepsSum(s[..|s| - 1]);
      InsertAddsTotal(SortByTotal(s[..|s| - 1]), s[|s| - 1]);
      assert s == s[..|s| - 1] + [s[|s| - 1]];
      SumOfConcat(s[..|s| - 1], [s[|s| - 1]]);
    }
  }
}
