/** The month-by-month carbon accumulation behind the break-even chart: the
    manufacturing debt, then one month of driving after another on a grid
    that decarbonises linearly and never drops below 0.05 kg CO2/kWh. */
module LcaTimeline {
  import opened Values
  import opened LcaEngine

  const AvgDaysPerMonth: real := 30.44
  const MinGridIntensity: real := 0.05
  const MonthsPerYear: real := 12.0

  /** One recorded month. The label `"<y>y <m>m"` is kept as its two numbers. */
  datatype TimelinePoint = TimelinePoint(month: int, year: real, cumulativeKg: int, labelYears: int, labelMonths: int)

  /** `Math.max(grid * (1 - rate * m / 12), 0.05)`: the grid of month `m`. */
  function EffectiveGrid(gridIntensity: real, improvementRate: real, m: int): (g: real)
    ensures g >= MinGridIntensity
    ensures g >= gridIntensity * (1.0 - improvementRate * (m as real / MonthsPerYear))
    ensures g == MinGridIntensity || g == gridIntensity * (1.0 - improvementRate * (m as real / MonthsPerYear))
  {
    if gridIntensity * (1.0 - improvementRate * (m as real / MonthsPerYear)) > MinGridIntensity
    then gridIntensity * (1.0 - improvementRate * (m as real / MonthsPerYear))
    else MinGridIntensity
  }

  /** The carbon of month `m`: the per-km rate on that month's grid times the
      distance of an average month. */
  function MonthlyEmission(v: Vehicle, gridIntensity: real, dailyKm: real, improvementRate: real, m: int): (r: real)
    requires Efficiency(v) > 0.0 && v.fuel.Known()
    ensures dailyKm > 0.0 ==> r > 0.0
    ensures dailyKm >= 0.0 ==> r >= 0.0
  {
    RateIsPositive(v, EffectiveGrid(gridIntensity, improvementRate, m));
    OperationalEmissionPerKm(v, EffectiveGrid(gridIntensity, improvementRate, m)).value * (dailyKm * AvgDaysPerMonth)
  }

  /** The unrounded running total at the start of month `m`: manufacturing
      plus months 0 to m - 1. */
  function Cumulative(v: Vehicle, gridIntensity: real, dailyKm: real, improvementRate: real, m: nat): (r: real)
    requires Efficiency(v) > 0.0 && v.fuel.Known()
    ensures dailyKm >= 0.0 ==> r >= ManufacturingKg(v)
    ensures dailyKm > 0.0 && m > 0 ==> r > ManufacturingKg(v)
  {
    if m == 0 then ManufacturingKg(v)
    else Cumulative(v, gridIntensity, dailyKm, improvementRate, m - 1)
         + MonthlyEmission(v, gridIntensity, dailyKm, improvementRate, m - 1)
  }

  /** The record pushed for month `m` with running total `cumulative`. */
  function Point(m: nat, cumulative: real): (p: TimelinePoint)
    ensures p.month == m && p.cumulativeKg == Round(cumulative)
    ensures p.year == RoundScaled(m as real / MonthsPerYear, 10)
    ensures p.labelYears * 12 + p.labelMonths == m && 0 <= p.labelMonths < 12
  {
    TimelinePoint(m, RoundScaled(m as real / MonthsPerYear, 10), Round(cumulative), m / 12, m % 12)
  }

  /** The recorded timeline: months 0 to `months`, each with the total at the
      start of that month; empty when `months` is negative. */
  function Timeline(v: Vehicle, gridIntensity: real, dailyKm: real, months: int, improvementRate: real): (t: seq<TimelinePoint>)
    requires Efficiency(v) > 0.0 && v.fuel.Known()
    ensures |t| == if months < 0 then 0 else months + 1
    ensures forall i | 0 <= i < |t| :: t[i].month == i
    decreases if months < 0 then 0 else months + 1
  {
    if months < 0 then []
    else Timeline(v, gridIntensity, dailyKm, months - 1, improvementRate)
         + [Point(months, Cumulative(v, gridIntensity, dailyKm, improvementRate, months))]
  }

  /** Pushes one point per month from 0 to `months`, then adds that month's
      driving and, after the last month, the disposal figure. The first
      per-km computation fails for an unrecognised fuel type. */
  method GenerateMonthlyTimeline(v: Vehicle, gridIntensity: real, dailyKm: real, months: int, gridImprovementRate: real)
    returns (r: Result<seq<TimelinePoint>>)
    requires Efficiency(v) > 0.0
    ensures r.Err? <==> v.fuel.Unrecognised? && months >= 0
    ensures r.Err? ==> r.error == UnknownFuelType(v.fuel.name)
    ensures r.Ok? && v.fuel.Known() ==> r.value == Timeline(v, gridIntensity, dailyKm, months, gridImprovementRate)
    ensures r.Ok? && v.fuel.Unrecognised? ==> r.value == []
  {
    var timeline: seq<TimelinePoint> := [];
    var mfg := ManufacturingKg(v);
    var disposal := OrDefault(v.disposalEmissionsKg, 0.0);
    var cumulative := mfg;
    var m := 0;
    while m <= months
      invariant 0 <= m <= if months >= 0 then months + 1 else 0
      invariant m > 0 ==> v.fuel.Known()
      invariant !v.fuel.Known() ==> timeline == []
      invariant v.fuel.Known() ==> timeline == Timeline(v, gridIntensity, dailyKm, m - 1, gridImprovementRate)
      invariant v.fuel.Known() && m <= months ==>
        cumulative == Cumulative(v, gridIntensity, dailyKm, gridImprovementRate, m)
    {
      timeline := timeline + [Point(m, cumulative)];
      var emissionPerKm := OperationalEmissionPerKm(v, EffectiveGrid(gridIntensity, gridImprovementRate, m));
      if emissionPerKm.Err? {
        return Err(emissionPerKm.error);
      }
      cumulative := cumulative + MonthlyEmission(v, gridIntensity, dailyKm, gridImprovementRate, m);
      if m == months {
        cumulative := cumulative + disposal;
      }
      m := m + 1;
    }
    r := Ok(timeline);
  }

  /** Point `i` of the timeline records the running total at the start of
      month `i`. */
  lemma {:induction false} TimelineAt(v: Vehicle, gridIntensity: real, dailyKm: real, months: int, improvementRate: real,
                                      i: int)
    requires Efficiency(v) > 0.0 && v.fuel.Known() && 0 <= i <= months
    ensures Timeline(v, gridIntensity, dailyKm, months, improvementRate)[i]
         == Point(i, Cumulative(v, gridIntensity, dailyKm, improvementRate, i))
    decreases months
  {
    if i < months {
      TimelineAt(v, gridIntensity, dailyKm, months - 1, improvementRate, i);
    }
  }

  /** Month 0 records the rounded manufacturing debt. */
  lemma TimelineStartsAtManufacturing(v: Vehicle, gridIntensity: real, dailyKm: real, months: int, improvementRate: real)
    requires Efficiency(v) > 0.0 && v.fuel.Known() && months >= 0
    ensures Timeline(v, gridIntensity, dailyKm, months, improvementRate)[0].cumulativeKg == Round(ManufacturingKg(v))
  {
    TimelineAt(v, gridIntensity, dailyKm, months, improvementRate, 0);
  }

  /** Driving only adds carbon: the running total grows month by month. */
  lemma {:induction false} CumulativeGrows(v: Vehicle, gridIntensity: real, dailyKm: real, improvementRate: real,
                                           m1: nat, m2: nat)
    requires Efficiency(v) > 0.0 && v.fuel.Known() && dailyKm >= 0.0 && m1 <= m2
    ensures Cumulative(v, gridIntensity, dailyKm, improvementRate, m1)
         <= Cumulative(v, gridIntensity, dailyKm, improvementRate, m2)
    decreases m2
  {
    if m1 < m2 {
      CumulativeGrows(v, gridIntensity, dailyKm, improvementRate, m1, m2 - 1);
    }
  }

  /** The recorded totals never decrease along the timeline. */
  lemma TimelineNonDecreasing(v: Vehicle, gridIntensity: real, dailyKm: real, months: int, improvementRate: real)
    requires Efficiency(v) > 0.0 && v.fuel.Known() && dailyKm >= 0.0
    ensures forall i, j | 0 <= i <= j < |Timeline(v, gridIntensity, dailyKm, months, improvementRate)| ::
      Timeline(v, gridIntensity, dailyKm, months, improvementRate)[i].cumulativeKg
      <= Timeline(v, gridIntensity, dailyKm, months, improvementRate)[j].cumulativeKg
  {
    var t := Timeline(v, gridIntensity, dailyKm, months, improvementRate);
    forall i, j | 0 <= i <= j < |t|
      ensures t[i].cumulativeKg <= t[j].cumulativeKg
    {
      TimelineAt(v, gridIntensity, dailyKm, months, improvementRate, i);
      TimelineAt(v, gridIntensity, dailyKm, months, improvementRate, j);
      CumulativeGrows(v, gridIntensity, dailyKm, improvementRate, i, j);
      RoundMonotone(Cumulative(v, gridIntensity, dailyKm, improvementRate, i),
                    Cumulative(v, gridIntensity, dailyKm, improvementRate, j));
    }
  }

  /** A month's carbon reads only the fuel type, the efficiency and the
      battery column of the vehicle. */
  lemma MonthlyEmissionReadsRate(v: Vehicle, w: Vehicle, gridIntensity: real, dailyKm: real, improvementRate: real, m: int)
    requires Efficiency(v) > 0.0 && v.fuel.Known()
    requires w.fuel == v.fuel && w.midcEfficiency == v.midcEfficiency && w.batteryCapacityKwh == v.batteryCapacityKwh
    ensures Efficiency(w) > 0.0
    ensures MonthlyEmission(w, gridIntensity, dailyKm, improvementRate, m)
         == MonthlyEmission(v, gridIntensity, dailyKm, improvementRate, m)
  {
    RateReadsFuelEfficiencyBattery(v, w, EffectiveGrid(gridIntensity, improvementRate, m));
  }

  /** The running total reads only the manufacturing figure and what the
      monthly carbon reads. */
  lemma {:induction false} CumulativeReadsRate(v: Vehicle, w: Vehicle, gridIntensity: real, dailyKm: real,
                                               improvementRate: real, m: nat)
    requires Efficiency(v) > 0.0 && v.fuel.Known() && Efficiency(w) > 0.0
    requires w.fuel == v.fuel && w.midcEfficiency == v.midcEfficiency && w.batteryCapacityKwh == v.batteryCapacityKwh
    requires ManufacturingKg(w) == ManufacturingKg(v)
    ensures Cumulative(w, gridIntensity, dailyKm, improvementRate, m)
         == Cumulative(v, gridIntensity, dailyKm, improvementRate, m)
  {
    if m > 0 {
      CumulativeReadsRate(v, w, gridIntensity, dailyKm, improvementRate, m - 1);
      MonthlyEmissionReadsRate(v, w, gridIntensity, dailyKm, improvementRate, m - 1);
      CumulativeStep(v, gridIntensity, dailyKm, improvementRate, m);
      CumulativeStep(w, gridIntensity, dailyKm, improvementRate, m);
    }
  }

  /** The running totals never read the disposal column. */
  lemma CumulativeIgnoresDisposal(v: Vehicle, gridIntensity: real, dailyKm: real, improvementRate: real,
                                  disposal: Option<real>, m: nat)
    requires Efficiency(v) > 0.0 && v.fuel.Known()
    ensures Cumulative(v.(disposalEmissionsKg := disposal), gridIntensity, dailyKm, improvementRate, m)
         == Cumulative(v, gridIntensity, dailyKm, improvementRate, m)
  {
    MonthlyEmissionReadsRate(v, v.(disposalEmissionsKg := disposal), gridIntensity, dailyKm, improvementRate, 0);
    ManufacturingIgnoresDisposal(v, disposal);
    CumulativeReadsRate(v, v.(disposalEmissionsKg := disposal), gridIntensity, dailyKm, improvementRate, m);
  }

  /** The disposal figure is added only after the last point is recorded,
      so no recorded point contains it: the timeline is the same whatever
      the disposal column holds. */
  lemma {:induction false} TimelineIgnoresDisposal(v: Vehicle, gridIntensity: real, dailyKm: real, months: int,
                                                   improvementRate: real, disposal: Option<real>)
    requires Efficiency(v) > 0.0 && v.fuel.Known()
    ensures Timeline(v.(disposalEmissionsKg := disposal), gridIntensity, dailyKm, months, improvementRate)
         == Timeline(v, gridIntensity, dailyKm, months, improvementRate)
    decreases if months < 0 then 0 else months + 1
  {
    if months >= 0 {
      TimelineIgnoresDisposal(v, gridIntensity, dailyKm, months - 1, improvementRate, disposal);
      CumulativeIgnoresDisposal(v, gridIntensity, dailyKm, improvementRate, disposal, months);
    }
  }

  /** For petrol, diesel and CNG the grid and its improvement play no part. */
  lemma {:induction false} CombustionIgnoresGrid(v: Vehicle, grid1: real, rate1: real, grid2: real, rate2: real,
                                                 dailyKm: real, m: nat)
    requires Efficiency(v) > 0.0 && v.fuel.Combustion()
    ensures Cumulative(v, grid1, dailyKm, rate1, m) == Cumulative(v, grid2, dailyKm, rate2, m)
  {
    if m > 0 {
      CombustionIgnoresGrid(v, grid1, rate1, grid2, rate2, dailyKm, m - 1);
      CombustionMonthIgnoresGrid(v, grid1, rate1, grid2, rate2, dailyKm, m - 1);
    }
  }

  lemma CombustionMonthIgnoresGrid(v: Vehicle, grid1: real, rate1: real, grid2: real, rate2: real, dailyKm: real, m: int)
    requires Efficiency(v) > 0.0 && v.fuel.Combustion()
    ensures MonthlyEmission(v, grid1, dailyKm, rate1, m) == MonthlyEmission(v, grid2, dailyKm, rate2, m)
  {
    assert OperationalEmissionPerKm(v, EffectiveGrid(grid1, rate1, m)) == OperationalEmissionPerKm(v, EffectiveGrid(grid2, rate2, m));
  }

  lemma CumulativeStep(v: Vehicle, gridIntensity: real, dailyKm: real, improvementRate: real, m: nat)
    requires Efficiency(v) > 0.0 && v.fuel.Known() && m > 0
    ensures Cumulative(v, gridIntensity, dailyKm, improvementRate, m)
         == Cumulative(v, gridIntensity, dailyKm, improvementRate, m - 1)
            + MonthlyEmission(v, gridIntensity, dailyKm, improvementRate, m - 1)
  {
  }

  /** Without improvement every month sees the same grid, so every month
      adds the same amount. */
  lemma StaticGridMonths(v: Vehicle, gridIntensity: real, dailyKm: real, m: int)
    requires Efficiency(v) > 0.0 && v.fuel.Known()
    ensures MonthlyEmission(v, gridIntensity, dailyKm, 0.0, m) == MonthlyEmission(v, gridIntensity, dailyKm, 0.0, 0)
  {
    assert 0.0 * (m as real / MonthsPerYear) == 0.0;
    assert EffectiveGrid(gridIntensity, 0.0, m) == EffectiveGrid(gridIntensity, 0.0, 0);
  }

  // ---------------------------------------------------------------------
  // The timeline with the disposal figure in its last point
  // ---------------------------------------------------------------------

  /** The timeline as its comment describes it: the disposal figure added at
      the last month, so the final point is the whole lifecycle. */
  function IntendedTimeline(v: Vehicle, gridIntensity: real, dailyKm: real, months: int, improvementRate: real)
    : (t: seq<TimelinePoint>)
    requires Efficiency(v) > 0.0 && v.fuel.Known()
    ensures |t| == if months < 0 then 0 else months + 1
  {
    if months < 0 then []
    else Timeline(v, gridIntensity, dailyKm, months - 1, improvementRate)
         + [Point(months, Cumulative(v, gridIntensity, dailyKm, improvementRate, months)
                          + OrDefault(v.disposalEmissionsKg, 0.0))]
  }

  /** The intended and the recorded timelines share every point but the
      last; the intended last point adds the disposal figure (0 when the
      column is null) to the running total. */
  lemma IntendedTimelineEndsWithDisposal(v: Vehicle, gridIntensity: real, dailyKm: real, months: int, improvementRate: real)
    requires Efficiency(v) > 0.0 && v.fuel.Known() && months >= 0
    ensures IntendedTimeline(v, gridIntensity, dailyKm, months, improvementRate)[..months]
         == Timeline(v, gridIntensity, dailyKm, months, improvementRate)[..months]
    ensures IntendedTimeline(v, gridIntensity, dailyKm, months, improvementRate)[months].cumulativeKg
         == Round(Cumulative(v, gridIntensity, dailyKm, improvementRate, months) + Num(v.disposalEmissionsKg))
    ensures Timeline(v, gridIntensity, dailyKm, months, improvementRate)[months].cumulativeKg
         == Round(Cumulative(v, gridIntensity, dailyKm, improvementRate, months))
  {
    OrZeroIsNum(v.disposalEmissionsKg);
    AppendedPoint(Timeline(v, gridIntensity, dailyKm, months - 1, improvementRate),
                  Point(months, Cumulative(v, gridIntensity, dailyKm, improvementRate, months)
                                + OrDefault(v.disposalEmissionsKg, 0.0)));
    AppendedPoint(Timeline(v, gridIntensity, dailyKm, months - 1, improvementRate),
                  Point(months, Cumulative(v, gridIntensity, dailyKm, improvementRate, months)));
  }

  lemma AppendedPoint(t: seq<TimelinePoint>, p: TimelinePoint)
    ensures (t + [p])[..|t|] == t && (t + [p])[|t|] == p
  {
  }

  /** A petrol car with 1000 kg CO2 of disposal, charted for 0 months: the
      recorded timeline shows only its manufacturing, the intended one
      includes the disposal. */
  lemma DisposalMissingFromLastPoint()
    ensures
      var car := Vehicle("petrol-car", "Maker", Petrol, None, None, Some(20.0), None, Some(5000.0), Some(1000.0),
                         true, None, None);
      && Timeline(car, 0.71, 40.0, 0, 0.0) == [TimelinePoint(0, 0.0, 5000, 0, 0)]
      && IntendedTimeline(car, 0.71, 40.0, 0, 0.0) == [TimelinePoint(0, 0.0, 6000, 0, 0)]
  {
    var car := Vehicle("petrol-car", "Maker", Petrol, None, None, Some(20.0), None, Some(5000.0), Some(1000.0),
                       true, None, None);
    assert RoundScaled(0.0, 10) == 0.0 by {
      RoundOfInteger(0);
    }
    assert Timeline(car, 0.71, 40.0, 0, 0.0)[0] == TimelinePoint(0, 0.0, 5000, 0, 0);
    assert IntendedTimeline(car, 0.71, 40.0, 0, 0.0)[0] == TimelinePoint(0, 0.0, 6000, 0, 0);
  }
}
