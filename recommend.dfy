/** The recommendation route's decision logic: pick up to three of the
    candidates (already sorted by total) so that the picks differ in make
    and, where possible, in fuel type; give each pick its rank and label;
    and average the totals of all candidates.

    The route compares objects by identity (`diverse.includes(item)`); every
    candidate is a distinct object, so the model records the POSITIONS of
    the picks in the sorted list. */
module Recommend {
  import opened Values
  import opened LcaEngine
  import opened Ranking

  const MaxPicks: nat := 3

  const Labels: seq<string> := ["Best Carbon Choice", "Greener Alternative", "Premium Carbon-Efficient Pick"]

  /** The three passes over the candidates: unique make and unique fuel,
      then unique make only, then anything not yet picked. */
  datatype Pass = UniqueMakeAndFuel | UniqueMake | Fill

  predicate InRange(s: seq<Scored>, picks: seq<nat>)
  {
    forall k | 0 <= k < |picks| :: picks[k] < |s|
  }

  predicate Distinct(picks: seq<nat>)
  {
    forall a, b | 0 <= a < b < |picks| :: picks[a] != picks[b]
  }

  /** The contents of `usedMakes` and `usedFuels` for a list of picks. */
  function MakesOf(s: seq<Scored>, picks: seq<nat>): set<string>
    requires InRange(s, picks)
  {
    set k | 0 <= k < |picks| :: s[picks[k]].vehicle.make
  }

  function FuelsOf(s: seq<Scored>, picks: seq<nat>): set<FuelType>
    requires InRange(s, picks)
  {
    set k | 0 <= k < |picks| :: s[picks[k]].vehicle.fuel
  }

  /** Whether a pass takes candidate `j`, given the picks so far. */
  predicate Accepts(s: seq<Scored>, pass: Pass, picks: seq<nat>, j: nat)
    requires j < |s| && InRange(s, picks)
  {
    match pass
    case UniqueMakeAndFuel => s[j].vehicle.make !in MakesOf(s, picks) && s[j].vehicle.fuel !in FuelsOf(s, picks)
    case UniqueMake => j !in picks && s[j].vehicle.make !in MakesOf(s, picks)
    case Fill => j !in picks
  }

  /** One pass from position `i` on: stops at the end of the list or as
      soon as three candidates are picked. */
  function Scan(s: seq<Scored>, pass: Pass, i: nat, picks: seq<nat>): (r: seq<nat>)
    requires i <= |s| && InRange(s, picks)
    ensures InRange(s, r)
    decreases |s| - i
  {
    if i == |s| || |picks| >= MaxPicks then picks
    else if Accepts(s, pass, picks, i) then Scan(s, pass, i + 1, picks + [i])
    else Scan(s, pass, i + 1, picks)
  }

  /** A pass only appends, never beyond three picks, and only candidates
      from its starting position on. */
  lemma {:induction false} ScanAppends(s: seq<Scored>, pass: Pass, i: nat, picks: seq<nat>)
    requires i <= |s| && InRange(s, picks)
    ensures picks <= Scan(s, pass, i, picks)
    ensures |picks| <= MaxPicks ==> |Scan(s, pass, i, picks)| <= MaxPicks
    ensures forall k | |picks| <= k < |Scan(s, pass, i, picks)| :: i <= Scan(s, pass, i, picks)[k]
    decreases |s| - i
  {
    if i < |s| && |picks| < MaxPicks {
      if Accepts(s, pass, picks, i) {
        UsedSetsGrow(s, picks, i);
        ScanAppends(s, pass, i + 1, picks + [i]);
      } else {
        ScanAppends(s, pass, i + 1, picks);
      }
    }
  }

  /** The picks after pass 1: at most three positions of the list. */
  function FirstPass(s: seq<Scored>): (r: seq<nat>)
    ensures InRange(s, r) && |r| <= MaxPicks
  {
    ScanAppends(s, UniqueMakeAndFuel, 0, []);
    Scan(s, UniqueMakeAndFuel, 0, [])
  }

  /** The picks after pass 2, which extend those of pass 1. */
  function SecondPass(s: seq<Scored>): (r: seq<nat>)
    ensures InRange(s, r) && |r| <= MaxPicks
    ensures FirstPass(s) <= r
  {
    ScanAppends(s, UniqueMake, 0, FirstPass(s));
    Scan(s, UniqueMake, 0, FirstPass(s))
  }

  /** The positions of the recommended candidates, best first. */
  function Selection(s: seq<Scored>): (r: seq<nat>)
    ensures InRange(s, r)
  {
    Scan(s, Fill, 0, SecondPass(s))
  }

  /** The candidates at the given positions. */
  function Items(s: seq<Scored>, picks: seq<nat>): (r: seq<Scored>)
    requires InRange(s, picks)
    ensures |r| == |picks|
  {
    seq(|picks|, k requires 0 <= k < |picks| => s[picks[k]])
  }

  lemma UsedSetsGrow(s: seq<Scored>, picks: seq<nat>, j: nat)
    requires InRange(s, picks) && j < |s|
    ensures InRange(s, picks + [j])
    ensures MakesOf(s, picks + [j]) == MakesOf(s, picks) + {s[j].vehicle.make}
    ensures FuelsOf(s, picks + [j]) == FuelsOf(s, picks) + {s[j].vehicle.fuel}
    ensures Items(s, picks + [j]) == Items(s, picks) + [s[j]]
  {
    var next := picks + [j];
    assert next[|picks|] == j;
    assert forall k | 0 <= k < |picks| :: next[k] == picks[k];
  }

  /** The route's selection: the three `for...of` loops in turn, the
      second and third only while fewer than three candidates are picked.
      The positions of the picks stand for object identity. */
  method SelectDiverse(scored: seq<Scored>) returns (diverse: seq<Scored>, picks: seq<nat>)
    ensures picks == Selection(scored)
    ensures diverse == Items(scored, picks)
  {
    var usedMakes: set<string>;
    var usedFuels: set<FuelType>;
    diverse, picks, usedMakes, usedFuels := PickUniqueMakeAndFuel(scored);
    if |diverse| < MaxPicks {
      diverse, picks, usedMakes := PickUniqueMake(scored, diverse, picks, usedMakes);
    }
    if |diverse| < MaxPicks {
      diverse, picks := PickRemaining(scored, diverse, picks);
    }
  }

  /** Pass 1: scanning in order, and stopping once three are picked, take
      every candidate whose make and fuel type are both still unused. */
  method PickUniqueMakeAndFuel(scored: seq<Scored>)
    returns (diverse: seq<Scored>, picks: seq<nat>, usedMakes: set<string>, usedFuels: set<FuelType>)
    ensures picks == FirstPass(scored) && InRange(scored, picks) && diverse == Items(scored, picks)
    ensures usedMakes == MakesOf(scored, picks) && usedFuels == FuelsOf(scored, picks)
  {
    diverse := [];
    picks := [];
    usedMakes := {};
    usedFuels := {};
    for i := 0 to |scored|
      invariant InRange(scored, picks) && diverse == Items(scored, picks)
      invariant usedMakes == MakesOf(scored, picks) && usedFuels == FuelsOf(scored, picks)
      invariant Scan(scored, UniqueMakeAndFuel, i, picks) == FirstPass(scored)
    {
      if |diverse| >= MaxPicks {
        break;
      }
      var item := scored[i];
      if item.vehicle.make !in usedMakes && item.vehicle.fuel !in usedFuels {
        UsedSetsGrow(scored, picks, i);
        diverse := diverse + [item];
        picks := picks + [i];
        usedMakes := usedMakes + {item.vehicle.make};
        usedFuels := usedFuels + {item.vehicle.fuel};
      }
    }
  }

  /** Pass 2: skip the candidates already picked and take every other one
      whose make is still unused, again stopping at three. */
  method PickUniqueMake(scored: seq<Scored>, diverse0: seq<Scored>, picks0: seq<nat>, usedMakes0: set<string>)
    returns (diverse: seq<Scored>, picks: seq<nat>, usedMakes: set<string>)
    requires picks0 == FirstPass(scored) && InRange(scored, picks0) && diverse0 == Items(scored, picks0)
    requires usedMakes0 == MakesOf(scored, picks0)
    ensures picks == SecondPass(scored) && InRange(scored, picks) && diverse == Items(scored, picks)
    ensures usedMakes == MakesOf(scored, picks)
  {
    diverse, picks, usedMakes := diverse0, picks0, usedMakes0;
    for i := 0 to |scored|
      invariant InRange(scored, picks) && diverse == Items(scored, picks)
      invariant usedMakes == MakesOf(scored, picks)
      invariant Scan(scored, UniqueMake, i, picks) == SecondPass(scored)
    {
      if |diverse| >= MaxPicks {
        break;
      }
      var item := scored[i];
      if i in picks {
        continue;
      }
      if item.vehicle.make !in usedMakes {
        UsedSetsGrow(scored, picks, i);
        diverse := diverse + [item];
        picks := picks + [i];
        usedMakes := usedMakes + {item.vehicle.make};
      }
    }
  }

  /** Pass 3: fill up to three with the candidates not yet picked. */
  method PickRemaining(scored: seq<Scored>, diverse0: seq<Scored>, picks0: seq<nat>)
    returns (diverse: seq<Scored>, picks: seq<nat>)
    requires picks0 == SecondPass(scored) && InRange(scored, picks0) && diverse0 == Items(scored, picks0)
    ensures picks == Selection(scored) && diverse == Items(scored, picks)
  {
    diverse, picks := diverse0, picks0;
    for i := 0 to |scored|
      invariant InRange(scored, picks) && diverse == Items(scored, picks)
      invariant Scan(scored, Fill, i, picks) == Selection(scored)
    {
      if |diverse| >= MaxPicks {
        break;
      }
      if i !in picks {
        UsedSetsGrow(scored, picks, i);
        diverse := diverse + [scored[i]];
        picks := picks + [i];
      }
    }
  }

  // ---------------------------------------------------------------------
  // What the selection guarantees
  // ---------------------------------------------------------------------

  predicate DistinctMakes(s: seq<Scored>, picks: seq<nat>)
    requires InRange(s, picks)
  {
    forall a, b | 0 <= a < b < |picks| :: s[picks[a]].vehicle.make != s[picks[b]].vehicle.make
  }

  predicate DistinctFuels(s: seq<Scored>, picks: seq<nat>)
    requires InRange(s, picks)
  {
    forall a, b | 0 <= a < b < |picks| :: s[picks[a]].vehicle.fuel != s[picks[b]].vehicle.fuel
  }

  lemma UsedSetsOfPrefix(s: seq<Scored>, picks: seq<nat>, longer: seq<nat>)
    requires InRange(s, longer) && picks <= longer
    ensures InRange(s, picks)
    ensures MakesOf(s, picks) <= MakesOf(s, longer) && FuelsOf(s, picks) <= FuelsOf(s, longer)
  {
    assert forall k | 0 <= k < |picks| :: picks[k] == longer[k];
  }

  lemma PickedMakeIsUsed(s: seq<Scored>, picks: seq<nat>, k: nat)
    requires InRange(s, picks) && k < |picks|
    ensures s[picks[k]].vehicle.make in MakesOf(s, picks)
    ensures s[picks[k]].vehicle.fuel in FuelsOf(s, picks)
  {
  }

  /** A candidate a pass takes is not already picked. */
  lemma AcceptedIsFresh(s: seq<Scored>, pass: Pass, picks: seq<nat>, j: nat)
    requires j < |s| && InRange(s, picks) && Accepts(s, pass, picks, j)
    ensures j !in picks
  {
  }

  lemma {:induction false} ScanKeepsDistinct(s: seq<Scored>, pass: Pass, i: nat, picks: seq<nat>)
    requires i <= |s| && InRange(s, picks) && Distinct(picks)
    ensures Distinct(Scan(s, pass, i, picks))
    decreases |s| - i
  {
    if i < |s| && |picks| < MaxPicks {
      if Accepts(s, pass, picks, i) {
        AcceptedIsFresh(s, pass, picks, i);
        UsedSetsGrow(s, picks, i);
        ScanKeepsDistinct(s, pass, i + 1, picks + [i]);
      } else {
        ScanKeepsDistinct(s, pass, i + 1, picks);
      }
    }
  }

  /** No candidate is recommended twice, and the first recommendation is
      the first candidate (the lowest total once the list is sorted). */
  lemma SelectionIsDistinct(s: seq<Scored>)
    ensures Distinct(Selection(s))
    ensures |s| > 0 ==> |Selection(s)| > 0 && Selection(s)[0] == 0
  {
    ScanKeepsDistinct(s, UniqueMakeAndFuel, 0, []);
    ScanKeepsDistinct(s, UniqueMake, 0, FirstPass(s));
    ScanKeepsDistinct(s, Fill, 0, SecondPass(s));
    if |s| > 0 {
      assert Accepts(s, UniqueMakeAndFuel, [], 0);
      assert FirstPass(s) == Scan(s, UniqueMakeAndFuel, 0 + 1, [] + [0]);
      assert [] + [0] == [0];
      ScanAppends(s, UniqueMakeAndFuel, 1, [0]);
      ScanAppends(s, UniqueMake, 0, FirstPass(s));
      ScanAppends(s, Fill, 0, SecondPass(s));
      assert FirstPass(s)[0] == 0;
      assert SecondPass(s)[0] == 0;
    }
  }

  lemma {:induction false} ScanKeepsMakesDistinct(s: seq<Scored>, pass: Pass, i: nat, picks: seq<nat>)
    requires i <= |s| && InRange(s, picks) && pass != Fill && DistinctMakes(s, picks)
    ensures DistinctMakes(s, Scan(s, pass, i, picks))
    decreases |s| - i
  {
    if i < |s| && |picks| < MaxPicks {
      if Accepts(s, pass, picks, i) {
        UsedSetsGrow(s, picks, i);
        forall k | 0 <= k < |picks|
          ensures s[picks[k]].vehicle.make != s[i].vehicle.make
        {
          PickedMakeIsUsed(s, picks, k);
        }
        ScanKeepsMakesDistinct(s, pass, i + 1, picks + [i]);
      } else {
        ScanKeepsMakesDistinct(s, pass, i + 1, picks);
      }
    }
  }

  lemma {:induction false} ScanKeepsFuelsDistinct(s: seq<Scored>, i: nat, picks: seq<nat>)
    requires i <= |s| && InRange(s, picks) && DistinctFuels(s, picks)
    ensures DistinctFuels(s, Scan(s, UniqueMakeAndFuel, i, picks))
    decreases |s| - i
  {
    if i < |s| && |picks| < MaxPicks {
      if Accepts(s, UniqueMakeAndFuel, picks, i) {
        UsedSetsGrow(s, picks, i);
        forall k | 0 <= k < |picks|
          ensures s[picks[k]].vehicle.fuel != s[i].vehicle.fuel
        {
          PickedMakeIsUsed(s, picks, k);
        }
        ScanKeepsFuelsDistinct(s, i + 1, picks + [i]);
      } else {
        ScanKeepsFuelsDistinct(s, i + 1, picks);
      }
    }
  }

  /** The first pass picks candidates with pairwise different makes and
      fuel types; after the second pass the makes are still pairwise
      different; each pass only appends to the picks of the one before. */
  lemma PassesDiversify(s: seq<Scored>)
    ensures DistinctMakes(s, FirstPass(s)) && DistinctFuels(s, FirstPass(s))
    ensures DistinctMakes(s, SecondPass(s))
    ensures FirstPass(s) <= SecondPass(s) <= Selection(s)
  {
    ScanKeepsMakesDistinct(s, UniqueMakeAndFuel, 0, []);
    ScanKeepsFuelsDistinct(s, 0, []);
    ScanKeepsMakesDistinct(s, UniqueMake, 0, FirstPass(s));
    ScanAppends(s, UniqueMake, 0, FirstPass(s));
    ScanAppends(s, Fill, 0, SecondPass(s));
  }

  lemma {:induction false} FirstScanIsMaximal(s: seq<Scored>, i: nat, picks: seq<nat>)
    requires i <= |s| && InRange(s, picks)
    ensures |Scan(s, UniqueMakeAndFuel, i, picks)| < MaxPicks ==>
      forall j | i <= j < |s| ::
        s[j].vehicle.make in MakesOf(s, Scan(s, UniqueMakeAndFuel, i, picks))
        || s[j].vehicle.fuel in FuelsOf(s, Scan(s, UniqueMakeAndFuel, i, picks))
    decreases |s| - i
  {
    var r := Scan(s, UniqueMakeAndFuel, i, picks);
    if i < |s| && |picks| < MaxPicks {
      if Accepts(s, UniqueMakeAndFuel, picks, i) {
        UsedSetsGrow(s, picks, i);
        FirstScanIsMaximal(s, i + 1, picks + [i]);
        ScanAppends(s, UniqueMakeAndFuel, i + 1, picks + [i]);
        UsedSetsOfPrefix(s, picks + [i], r);
      } else {
        FirstScanIsMaximal(s, i + 1, picks);
        ScanAppends(s, UniqueMakeAndFuel, i + 1, picks);
        UsedSetsOfPrefix(s, picks, r);
      }
    }
  }

  lemma {:induction false} SecondScanIsMaximal(s: seq<Scored>, i: nat, picks: seq<nat>)
    requires i <= |s| && InRange(s, picks)
    ensures |Scan(s, UniqueMake, i, picks)| < MaxPicks ==>
      forall j | i <= j < |s| :: s[j].vehicle.make in MakesOf(s, Scan(s, UniqueMake, i, picks))
    decreases |s| - i
  {
    var r := Scan(s, UniqueMake, i, picks);
    if i < |s| && |picks| < MaxPicks {
      if Accepts(s, UniqueMake, picks, i) {
        UsedSetsGrow(s, picks, i);
        SecondScanIsMaximal(s, i + 1, picks + [i]);
        ScanAppends(s, UniqueMake, i + 1, picks + [i]);
        UsedSetsOfPrefix(s, picks + [i], r);
      } else {
        if i in picks {
          var k :| 0 <= k < |picks| && picks[k] == i;
          PickedMakeIsUsed(s, picks, k);
        }
        SecondScanIsMaximal(s, i + 1, picks);
        ScanAppends(s, UniqueMake, i + 1, picks);
        UsedSetsOfPrefix(s, picks, r);
      }
    }
  }

  /** A pass that ends with fewer than three picks skipped only candidates
      it had to skip: after the first pass every candidate shares a make or
      a fuel type with a pick, after the second every candidate shares a
      make with a pick. */
  lemma PassesAreGreedy(s: seq<Scored>)
    ensures |FirstPass(s)| < MaxPicks ==>
      forall j | 0 <= j < |s| :: s[j].vehicle.make in MakesOf(s, FirstPass(s)) || s[j].vehicle.fuel in FuelsOf(s, FirstPass(s))
    ensures |SecondPass(s)| < MaxPicks ==>
      forall j | 0 <= j < |s| :: s[j].vehicle.make in MakesOf(s, SecondPass(s))
  {
    FirstScanIsMaximal(s, 0, []);
    SecondScanIsMaximal(s, 0, FirstPass(s));
  }

  lemma {:induction false} FillCovers(s: seq<Scored>, i: nat, picks: seq<nat>)
    requires i <= |s| && InRange(s, picks)
    ensures |Scan(s, Fill, i, picks)| < MaxPicks ==> forall j | i <= j < |s| :: j in Scan(s, Fill, i, picks)
    decreases |s| - i
  {
    var r := Scan(s, Fill, i, picks);
    if i < |s| && |picks| < MaxPicks {
      if i !in picks {
        UsedSetsGrow(s, picks, i);
        FillCovers(s, i + 1, picks + [i]);
        ScanAppends(s, Fill, i + 1, picks + [i]);
        assert (picks + [i])[|picks|] == i;
        assert r[|picks|] == i;
      } else {
        FillCovers(s, i + 1, picks);
        ScanAppends(s, Fill, i + 1, picks);
        var k :| 0 <= k < |picks| && picks[k] == i;
        assert r[k] == i;
      }
    }
  }

  function Elements(p: seq<nat>): set<nat>
  {
    set x | x in p
  }

  lemma {:induction false} DistinctElements(p: seq<nat>)
    requires Distinct(p)
    ensures |Elements(p)| == |p|
    decreases |p|
  {
    if p != [] {
      var init := p[..|p| - 1];
      DistinctElements(init);
      assert Elements(p) == Elements(init) + {p[|p| - 1]};
      assert p[|p| - 1] !in Elements(init);
    }
  }

  lemma {:induction false} SubsetSize(a: set<nat>, b: set<nat>)
    requires a <= b
    ensures |a| <= |b|
    decreases |a|
  {
    if a != {} {
      var x :| x in a;
      SubsetSize(a - {x}, b - {x});
    }
  }

  /** The positions 0 to n - 1. */
  function Below(n: nat): set<nat>
  {
    if n == 0 then {} else Below(n - 1) + {n - 1}
  }

  lemma {:induction false} BelowMembers(n: nat, j: nat)
    ensures j in Below(n) <==> j < n
  {
    if n > 0 {
      BelowMembers(n - 1, j);
    }
  }

  lemma {:induction false} BelowSize(n: nat)
    ensures |Below(n)| == n
  {
    if n > 0 {
      BelowSize(n - 1);
      BelowMembers(n - 1, n - 1);
    }
  }

  /** The route recommends three candidates, or all of them when there are
      fewer than three. */
  lemma SelectionSize(s: seq<Scored>)
    ensures |Selection(s)| == if |s| < MaxPicks then |s| else MaxPicks
  {
    var r := Selection(s);
    ScanAppends(s, UniqueMakeAndFuel, 0, []);
    ScanAppends(s, UniqueMake, 0, FirstPass(s));
    ScanAppends(s, Fill, 0, SecondPass(s));
    SelectionIsDistinct(s);
    DistinctElements(r);
    BelowSize(|s|);
    forall j | j in Elements(r)
      ensures j in Below(|s|)
    {
      BelowMembers(|s|, j);
    }
    SubsetSize(Elements(r), Below(|s|));
    FillCovers(s, 0, SecondPass(s));
    if |r| < MaxPicks {
      forall j | j in Below(|s|)
        ensures j in Elements(r)
      {
        BelowMembers(|s|, j);
      }
      SubsetSize(Below(|s|), Elements(r));
    }
  }

  // ---------------------------------------------------------------------
  // Ranks, labels and the budget average
  // ---------------------------------------------------------------------

  datatype Recommendation = Recommendation(item: Scored, rank: int, labelText: string)

  /** `LABELS[rank] || ''`. */
  function Label(k: nat): (r: string)
    ensures r != "" <==> k < MaxPicks
  {
    if k < |Labels| then Labels[k] else ""
  }

  function Recommendations(diverse: seq<Scored>): (r: seq<Recommendation>)
    ensures |r| == |diverse|
  {
    seq(|diverse|, k requires 0 <= k < |diverse| => Recommendation(diverse[k], k + 1, Label(k)))
  }

  /** Recommendations keep the order of the picks, are ranked 1, 2, 3, and
      each of the at most three picks gets its own non-empty label. */
  lemma RecommendationsAreRanked(s: seq<Scored>)
    ensures |Recommendations(Items(s, Selection(s)))| == |Selection(s)| <= MaxPicks
    ensures forall k | 0 <= k < |Selection(s)| ::
      && Recommendations(Items(s, Selection(s)))[k].item == s[Selection(s)[k]]
      && Recommendations(Items(s, Selection(s)))[k].rank == k + 1
      && Recommendations(Items(s, Selection(s)))[k].labelText != ""
    ensures forall a, b | 0 <= a < b < |Selection(s)| ::
      Recommendations(Items(s, Selection(s)))[a].labelText != Recommendations(Items(s, Selection(s)))[b].labelText
  {
    SelectionSize(s);
  }

  /** `Math.round(sum / n)`, or 0 when there are no candidates. */
  function AverageCarbon(s: seq<Scored>): (r: int)
    ensures s == [] ==> r == 0
    ensures |s| > 0 ==> -0.5 <= SumOfTotals(s) as real / |s| as real - r as real < 0.5
  {
    if |s| > 0 then Round(SumOfTotals(s) as real / |s| as real) else 0
  }

  lemma {:induction false} SumBounds(s: seq<Scored>, lo: int, hi: int)
    requires forall x | x in s :: lo <= TotalOf(x) <= hi
    ensures |s| * lo <= SumOfTotals(s) <= |s| * hi
  {
    if s != [] {
      SumBounds(s[1..], lo, hi);
      assert s[0] in s;
      assert |s| * lo == (|s| - 1) * lo + lo;
      assert |s| * hi == (|s| - 1) * hi + hi;
    }
  }

  lemma QuotientBounds(sum: int, n: int, lo: int, hi: int)
    requires n > 0 && n * lo <= sum <= n * hi
    ensures lo as real <= sum as real / n as real <= hi as real
  {
    assert (n * lo) as real == n as real * lo as real;
    assert (n * hi) as real == n as real * hi as real;
  }

  /** The average lies between the smallest and the largest total. */
  lemma AverageIsBetween(s: seq<Scored>, lo: int, hi: int)
    requires |s| > 0 && forall x | x in s :: lo <= TotalOf(x) <= hi
    ensures lo <= AverageCarbon(s) <= hi
  {
    SumBounds(s, lo, hi);
    QuotientBounds(SumOfTotals(s), |s|, lo, hi);
    RoundMonotone(lo as real, SumOfTotals(s) as real / |s| as real);
    RoundMonotone(SumOfTotals(s) as real / |s| as real, hi as real);
    RoundOfInteger(lo);
    RoundOfInteger(hi);
  }

  /** Averaging after the sort gives the average of the unsorted list. */
  lemma AverageIgnoresOrder(s: seq<Scored>)
    ensures AverageCarbon(SortByTotal(s)) == AverageCarbon(s)
  {
    SortKeepsSum(s);
  }
}
