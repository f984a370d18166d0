/** The comparison route's decision logic: the size check on the requested
    ids, the ordering of the results, and the break-even analysis of every
    electric result against every petrol, diesel or CNG result. */
module Compare {
  import opened Values
  import opened LcaEngine
  import opened Ranking

  const MinCompared: nat := 2
  const MaxCompared: nat := 4

  /** The `vehicle_ids` field of the request body: missing (or any falsy
      value), present but not an array, or an array of ids. */
  datatype IdsField = Absent | NotAnArray | IdList(ids: seq<string>)

  /** 'Provide 2-4 vehicle_ids as an array' and 'Maximum 4 vehicles for
      comparison', both answered with status 400. */
  datatype CompareError = NeedTwoToFour | AtMostFour

  datatype CheckedIds = Accepted(ids: seq<string>) | Rejected(error: CompareError)

  /** The two guards at the top of the route, in their order. */
  function CheckCompareRequest(field: IdsField): (r: CheckedIds)
    ensures r.Accepted? <==> field.IdList? && MinCompared <= |field.ids| <= MaxCompared
    ensures r.Accepted? ==> r.ids == field.ids
    ensures r == Rejected(AtMostFour) <==> field.IdList? && |field.ids| > MaxCompared
  {
    if !field.IdList? || |field.ids| < MinCompared then Rejected(NeedTwoToFour)
    else if |field.ids| > MaxCompared then Rejected(AtMostFour)
    else Accepted(field.ids)
  }

  predicate IsElectric(x: Scored)
  {
    x.vehicle.fuel.Electric?
  }

  /** `['PETROL', 'DIESEL', 'CNG'].includes(fuel_type)`. */
  predicate IsCombustion(x: Scored)
  {
    x.vehicle.fuel.Combustion()
  }

  /** `results.filter(r => r.vehicle.fuel_type === 'ELECTRIC')`. */
  function ElectricResults(s: seq<Scored>): (r: seq<Scored>)
    ensures |r| <= |s|
  {
    if s == [] then []
    else ElectricResults(s[..|s| - 1]) + (if IsElectric(s[|s| - 1]) then [s[|s| - 1]] else [])
  }

  /** The filter keeps exactly the electric results. */
  lemma {:induction false} ElectricMembers(s: seq<Scored>, x: Scored)
    ensures x in ElectricResults(s) <==> x in s && IsElectric(x)
    decreases |s|
  {
    if s != [] {
      ElectricMembers(s[..|s| - 1], x);
      assert s == s[..|s| - 1] + [s[|s| - 1]];
    }
  }

  /** A concatenation is filtered part by part; with `ElectricResultsOfOne`
      this says the filter keeps the electric results in their order, each
      once. */
  lemma {:induction false} ElectricResultsAppend(a: seq<Scored>, b: seq<Scored>)
    ensures ElectricResults(a + b) == ElectricResults(a) + ElectricResults(b)
    decreases |b|
  {
    if b == [] {
      assert a + b == a;
    } else {
      var init, last := b[..|b| - 1], b[|b| - 1];
      ElectricResultsAppend(a, init);
      assert (a + b)[..|a + b| - 1] == a + init;
      assert (a + b)[|a + b| - 1] == last;
      assert ElectricResults(a + b) == ElectricResults(a + init) + (if IsElectric(last) then [last] else []);
      assert ElectricResults(b) == ElectricResults(init) + (if IsElectric(last) then [last] else []);
    }
  }

  /** A single result is kept exactly when it is electric. */
  lemma ElectricResultsOfOne(x: Scored)
    ensures ElectricResults([x]) == if IsElectric(x) then [x] else []
  {
    assert [x][..0] == [];
  }

  /** `results.filter(r => ['PETROL', 'DIESEL', 'CNG'].includes(r.vehicle.fuel_type))`. */
  function CombustionResults(s: seq<Scored>): (r: seq<Scored>)
    ensures |r| <= |s|
  {
    if s == [] then []
    else CombustionResults(s[..|s| - 1]) + (if IsCombustion(s[|s| - 1]) then [s[|s| - 1]] else [])
  }

  /** The filter keeps exactly the petrol, diesel and CNG results. */
  lemma {:induction false} CombustionMembers(s: seq<Scored>, x: Scored)
    ensures x in CombustionResults(s) <==> x in s && IsCombustion(x)
    decreases |s|
  {
    if s != [] {
      CombustionMembers(s[..|s| - 1], x);
      assert s == s[..|s| - 1] + [s[|s| - 1]];
    }
  }

  /** The same for the combustion filter: the petrol, diesel and CNG
      results in their order, each once. */
  lemma {:induction false} CombustionResultsAppend(a: seq<Scored>, b: seq<Scored>)
    ensures CombustionResults(a + b) == CombustionResults(a) + CombustionResults(b)
    decreases |b|
  {
    if b == [] {
      assert a + b == a;
    } else {
      var init, last := b[..|b| - 1], b[|b| - 1];
      CombustionResultsAppend(a, init);
      assert (a + b)[..|a + b| - 1] == a + init;
      assert (a + b)[|a + b| - 1] == last;
      assert CombustionResults(a + b) == CombustionResults(a + init) + (if IsCombustion(last) then [last] else []);
      assert CombustionResults(b) == CombustionResults(init) + (if IsCombustion(last) then [last] else []);
    }
  }

  /** A single result is kept exactly when it is petrol, diesel or CNG. */
  lemma CombustionResultsOfOne(x: Scored)
    ensures CombustionResults([x]) == if IsCombustion(x) then [x] else []
  {
    assert [x][..0] == [];
  }

  /** One pushed record: the two vehicles (the route prints their names)
      and the break-even of their lifecycle results. */
  datatype PairEntry = PairEntry(ev: Scored, ice: Scored, breakeven: Breakeven)

  function Entry(ev: Scored, ice: Scored): (e: PairEntry)
    ensures e.ev == ev && e.ice == ice
    ensures e.breakeven.Never? <==> ev.emissions.emissionPerKm >= ice.emissions.emissionPerKm
  {
    PairEntry(ev, ice, CalculateBreakeven(ev.emissions, ice.emissions))
  }

  /** The records of the inner loop for one electric result, each made by
      `record`. */
  function Row<T>(ev: Scored, ices: seq<Scored>, record: (Scored, Scored) -> T): (r: seq<T>)
    ensures |r| == |ices|
  {
    if ices == [] then [] else Row(ev, ices[..|ices| - 1], record) + [record(ev, ices[|ices| - 1])]
  }

  /** The records of both loops, electric-major. */
  function Pairs<T>(evs: seq<Scored>, ices: seq<Scored>, record: (Scored, Scored) -> T): seq<T>
  {
    if evs == [] then [] else Pairs(evs[..|evs| - 1], ices, record) + Row(evs[|evs| - 1], ices, record)
  }

  /** Sorts the results by total, splits them by fuel type, and runs the
      outer loop over the electric results. */
  method BreakevenAnalysis(results: seq<Scored>) returns (ordered: seq<Scored>, analysis: seq<PairEntry>)
    ensures ordered == SortByTotal(results)
    ensures analysis == Pairs(ElectricResults(ordered), CombustionResults(ordered), Entry)
  {
    ordered := SortByTotal(results);
    var evResults := ElectricResults(ordered);
    var iceResults := CombustionResults(ordered);
    analysis := [];
    for a := 0 to |evResults|
      invariant analysis == Pairs(evResults[..a], iceResults, Entry)
    {
      var row := AnalyseAgainstEach(evResults[a], iceResults);
      analysis := analysis + row;
      assert evResults[..a + 1][..a] == evResults[..a];
    }
    assert evResults[..|evResults|] == evResults;
  }

  /** The inner loop: one record for the electric result against each
      combustion result in turn. */
  method AnalyseAgainstEach(ev: Scored, ices: seq<Scored>) returns (row: seq<PairEntry>)
    ensures row == Row(ev, ices, Entry)
  {
    row := [];
    for b := 0 to |ices|
      invariant row == Row(ev, ices[..b], Entry)
    {
      assert ices[..b + 1][..b] == ices[..b];
      row := row + [Entry(ev, ices[b])];
    }
    assert ices[..|ices|] == ices;
  }

  lemma {:induction false} RowAt<T>(ev: Scored, ices: seq<Scored>, record: (Scored, Scored) -> T, b: nat)
    requires b < |ices|
    ensures Row(ev, ices, record)[b] == record(ev, ices[b])
    decreases |ices|
  {
    if b < |ices| - 1 {
      RowAt(ev, ices[..|ices| - 1], record, b);
    }
  }

  lemma {:induction false} PairsSize<T>(evs: seq<Scored>, ices: seq<Scored>, record: (Scored, Scored) -> T)
    ensures |Pairs(evs, ices, record)| == |evs| * |ices|
    decreases |evs|
  {
    if evs != [] {
      PairsSize(evs[..|evs| - 1], ices, record);
      assert |evs| * |ices| == (|evs| - 1) * |ices| + |ices|;
    }
  }

  lemma IndexBelow(a: nat, b: nat, m: nat, k: nat)
    requires a < k && b < m
    ensures a * m + b < k * m
  {
    assert a * m + b < (a + 1) * m;
    assert (a + 1) * m <= k * m;
  }

  /** Record `a * |ices| + b` pairs electric result `a` with combustion
      result `b`. */
  lemma {:induction false} PairsAt<T>(evs: seq<Scored>, ices: seq<Scored>, record: (Scored, Scored) -> T, a: nat, b: nat)
    requires a < |evs| && b < |ices|
    ensures a * |ices| + b < |Pairs(evs, ices, record)|
    ensures Pairs(evs, ices, record)[a * |ices| + b] == record(evs[a], ices[b])
    decreases |evs|
  {
    var init := evs[..|evs| - 1];
    PairsSize(evs, ices, record);
    PairsSize(init, ices, record);
    IndexBelow(a, b, |ices|, |evs|);
    if a < |init| {
      PairsAt(init, ices, record, a, b);
    } else {
      assert a * |ices| == |Pairs(init, ices, record)|;
      RowAt(evs[a], ices, record, b);
    }
  }

  /** Every record comes from an electric result and a combustion result of
      the two lists. */
  lemma {:induction false} PairsFromLists<T>(evs: seq<Scored>, ices: seq<Scored>, record: (Scored, Scored) -> T, e: T)
    requires e in Pairs(evs, ices, record)
    ensures exists ev, ice | ev in evs && ice in ices :: e == record(ev, ice)
    decreases |evs|
  {
    var init := evs[..|evs| - 1];
    if e in Pairs(init, ices, record) {
      PairsFromLists(init, ices, record, e);
      var ev, ice :| ev in init && ice in ices && e == record(ev, ice);
      assert ev in evs;
    } else {
      assert e in Row(evs[|evs| - 1], ices, record);
      var b :| 0 <= b < |ices| && Row(evs[|evs| - 1], ices, record)[b] == e;
      RowAt(evs[|evs| - 1], ices, record, b);
      assert ices[b] in ices;
    }
  }

  /** Every record pairs an electric result with a petrol, diesel or CNG
      result of the list; hybrids and unrecognised fuel types never appear. */
  lemma OnlyEvAgainstIce(ordered: seq<Scored>, e: PairEntry)
    requires e in Pairs(ElectricResults(ordered), CombustionResults(ordered), Entry)
    ensures e.ev in ordered && IsElectric(e.ev) && !e.ev.vehicle.fuel.Hybrid?
    ensures e.ice in ordered && IsCombustion(e.ice) && !e.ice.vehicle.fuel.Hybrid?
  {
    PairsFromLists(ElectricResults(ordered), CombustionResults(ordered), Entry, e);
    var ev, ice :| ev in ElectricResults(ordered) && ice in CombustionResults(ordered) && e == Entry(ev, ice);
    ElectricMembers(ordered, ev);
    CombustionMembers(ordered, ice);
  }

  lemma PairOfMembers<T>(evs: seq<Scored>, ices: seq<Scored>, record: (Scored, Scored) -> T, ev: Scored, ice: Scored)
    requires ev in evs && ice in ices
    ensures record(ev, ice) in Pairs(evs, ices, record)
  {
    var a :| 0 <= a < |evs| && evs[a] == ev;
    var b :| 0 <= b < |ices| && ices[b] == ice;
    PairsAt(evs, ices, record, a, b);
  }

  /** In a result list, every electric result meets every combustion result. */
  lemma PairIsInList(ordered: seq<Scored>, ev: Scored, ice: Scored)
    requires ev in ordered && IsElectric(ev) && ice in ordered && IsCombustion(ice)
    ensures Entry(ev, ice) in Pairs(ElectricResults(ordered), CombustionResults(ordered), Entry)
  {
    ElectricMembers(ordered, ev);
    CombustionMembers(ordered, ice);
    PairOfMembers(ElectricResults(ordered), CombustionResults(ordered), Entry, ev, ice);
  }

  /** Sorting loses no pair: every electric result the route scored meets
      every combustion result it scored. */
  lemma EveryPairIsAnalysed(results: seq<Scored>, ev: Scored, ice: Scored)
    requires ev in results && IsElectric(ev) && ice in results && IsCombustion(ice)
    ensures Entry(ev, ice) in Pairs(ElectricResults(SortByTotal(results)), CombustionResults(SortByTotal(results)), Entry)
  {
    SortIsPermutation(results);
    assert ev in multiset(SortByTotal(results)) && ice in multiset(SortByTotal(results));
    PairIsInList(SortByTotal(results), ev, ice);
  }
}
