/** The lifecycle-carbon engine: per-km operational emissions, the
    manufacturing and disposal figures, the lifecycle total, the linear
    break-even between an electric and a combustion vehicle, the total cost
    of ownership and the greenwash audit. Every quantity is a `real`; the
    engine rounds only at its output, exactly where the original does. */
module LcaEngine {
  import opened Values

  // ---------------------------------------------------------------------
  // Constants, grouped by the quantity they stand for
  // ---------------------------------------------------------------------

  // Fuel emission factors: kg CO2 per litre (petrol, diesel) or per kg (CNG).
  const PetrolFactor: real := 2.31
  const DieselFactor: real := 2.68
  const CngFactor: real := 2.75

  // Loss and blend factors.
  const ChargingLossFactor: real := 1.15
  const HybridElectricFraction: real := 0.35
  const HybridEfficiencyPenalty: real := 1.3

  // Usage-pattern multipliers.
  const CityMultiplier: real := 1.15
  const HighwayMultiplier: real := 0.90
  const MixedMultiplier: real := 1.0

  // Manufacturing and disposal heuristics.
  const DefaultKerbWeightKg: real := 1200.0
  const KgCo2PerKgWeight: real := 4.0
  const KgCo2PerBatteryKwh: real := 150.0
  const UnmanagedDisposalPenalty: real := 1.5
  const PenaltyBatteryKwh: real := 5.0

  // Calendar.
  const DaysPerYear: real := 365.0

  // Break-even.
  const DefaultBreakevenDailyKm: real := 40.0

  // Cost rates.
  const RupeesPerLakh: real := 100000.0
  const InsuranceRate: real := 0.03
  const ElectricMaintenancePerYear: real := 5000.0
  const OtherMaintenancePerYear: real := 12000.0
  const DefaultElectricityPrice: real := 8.0

  // Greenwash thresholds.
  const ZeroEmissionMfgKg: real := 5000.0
  const HighGridIntensity: real := 0.75
  const HeavyEvKerbKg: real := 1800.0

  // ---------------------------------------------------------------------
  // Operational emission per km
  // ---------------------------------------------------------------------

  /** kg CO2 per km driven. The rate reads three things of the vehicle
      record: its fuel type, its MIDC efficiency and whether it has a battery
      figure (`RateFor` says how). An unrecognised fuel type is an error. */
  function OperationalEmissionPerKm(v: Vehicle, gridIntensity: real): (r: Result<real>)
    requires Efficiency(v) > 0.0
    ensures r.Err? <==> v.fuel.Unrecognised?
    ensures r.Err? ==> r.error == UnknownFuelType(v.fuel.name)
    ensures v.fuel.Petrol? ==> r.value * Efficiency(v) == PetrolFactor
    ensures v.fuel.Diesel? ==> r.value * Efficiency(v) == DieselFactor
    ensures v.fuel.Cng? ==> r.value * Efficiency(v) == CngFactor
    ensures v.fuel.Electric? ==> r.value * Efficiency(v) == gridIntensity * ChargingLossFactor
  {
    RateFor(v.fuel, Efficiency(v), Truthy(v.batteryCapacityKwh), gridIntensity)
  }

  /** Fuel consumed per km times the fuel's factor, or for electricity the
      energy per km times grid intensity times charging losses; a hybrid
      blends 65% petrol with 35% electric driving at 1.3 times the
      efficiency (the consumption divided by 1.3), the electric share only
      when it has a battery figure. */
  function RateFor(fuel: FuelType, efficiency: real, hasBattery: bool, gridIntensity: real): (r: Result<real>)
    requires efficiency > 0.0
    ensures r.Err? <==> fuel.Unrecognised?
    ensures r.Err? ==> r.error == UnknownFuelType(fuel.name)
    ensures fuel.Petrol? ==> r.value * efficiency == PetrolFactor
    ensures fuel.Diesel? ==> r.value * efficiency == DieselFactor
    ensures fuel.Cng? ==> r.value * efficiency == CngFactor
    ensures fuel.Electric? ==> r.value * efficiency == gridIntensity * ChargingLossFactor
  {
    match fuel
    case Petrol => Ok((1.0 / efficiency) * PetrolFactor)
    case Diesel => Ok((1.0 / efficiency) * DieselFactor)
    case Cng => Ok((1.0 / efficiency) * CngFactor)
    case Electric => Ok((1.0 / efficiency) * gridIntensity * ChargingLossFactor)
    case Hybrid =>
      Ok((1.0 - HybridElectricFraction) * ((1.0 / efficiency) * PetrolFactor)
         + HybridElectricFraction *
           (if hasBattery
            then (1.0 / (efficiency * HybridEfficiencyPenalty)) * gridIntensity * ChargingLossFactor
            else 0.0))
    case Unrecognised(name) => Err(UnknownFuelType(name))
  }

  /** Every known rate is positive: always for petrol, diesel, CNG and
      hybrid vehicles on a non-negative grid, and for electric vehicles on a
      grid with positive intensity. */
  lemma RateIsPositive(v: Vehicle, gridIntensity: real)
    requires Efficiency(v) > 0.0 && v.fuel.Known()
    ensures v.fuel.Combustion() ==> OperationalEmissionPerKm(v, gridIntensity).value > 0.0
    ensures gridIntensity > 0.0 ==> OperationalEmissionPerKm(v, gridIntensity).value > 0.0
    ensures v.fuel.Hybrid? && gridIntensity >= 0.0 ==> OperationalEmissionPerKm(v, gridIntensity).value > 0.0
    ensures gridIntensity >= 0.0 ==> OperationalEmissionPerKm(v, gridIntensity).value >= 0.0
  {
    assert 1.0 / Efficiency(v) > 0.0;
    if v.fuel.Electric? && gridIntensity > 0.0 {
      assert (1.0 / Efficiency(v)) * gridIntensity > 0.0;
    }
    if v.fuel.Hybrid? && gridIntensity >= 0.0 {
      assert 1.0 / (Efficiency(v) * HybridEfficiencyPenalty) > 0.0;
      assert (1.0 / (Efficiency(v) * HybridEfficiencyPenalty)) * gridIntensity >= 0.0;
    }
  }

  /** The same vehicle record with another fuel type and efficiency. */
  function WithFuel(v: Vehicle, fuel: FuelType, efficiency: real): Vehicle
  {
    v.(fuel := fuel, midcEfficiency := Some(efficiency))
  }

  /** The rate reads only the fuel type, the efficiency and the battery
      figure of the record. */
  lemma RateReadsFuelEfficiencyBattery(v: Vehicle, w: Vehicle, gridIntensity: real)
    requires Efficiency(v) > 0.0
    requires v.fuel == w.fuel && v.midcEfficiency == w.midcEfficiency && v.batteryCapacityKwh == w.batteryCapacityKwh
    ensures OperationalEmissionPerKm(v, gridIntensity) == OperationalEmissionPerKm(w, gridIntensity)
  {
    assert Efficiency(v) == Efficiency(w);
  }

  /** The hybrid rate is the blend of what the same record would emit as a
      petrol vehicle (65%) and, when it has a battery figure, as an electric
      vehicle with 1.3 times the efficiency (35%). */
  lemma HybridIsBlend(v: Vehicle, gridIntensity: real)
    requires v.fuel.Hybrid? && Efficiency(v) > 0.0
    ensures
      OperationalEmissionPerKm(v, gridIntensity).value ==
        (1.0 - HybridElectricFraction) * OperationalEmissionPerKm(WithFuel(v, Petrol, Efficiency(v)), gridIntensity).value
        + HybridElectricFraction *
          (if Truthy(v.batteryCapacityKwh)
           then OperationalEmissionPerKm(WithFuel(v, Electric, Efficiency(v) * HybridEfficiencyPenalty), gridIntensity).value
           else 0.0)
  {
    assert Efficiency(WithFuel(v, Petrol, Efficiency(v))) == Efficiency(v);
    assert Efficiency(WithFuel(v, Electric, Efficiency(v) * HybridEfficiencyPenalty)) == Efficiency(v) * HybridEfficiencyPenalty;
  }

  lemma ReciprocalFalls(e1: real, e2: real, k: real)
    requires 0.0 < e1 < e2 && k > 0.0
    ensures (1.0 / e2) * k < (1.0 / e1) * k
  {
    assert 1.0 / e1 - 1.0 / e2 == (e2 - e1) / (e1 * e2);
    assert e1 * e2 > 0.0;
    assert (e2 - e1) / (e1 * e2) > 0.0;
    assert (1.0 / e1) * k - (1.0 / e2) * k == (1.0 / e1 - 1.0 / e2) * k;
  }

  /** Better mileage means lower per-km emissions: strictly for every
      combustion type, and for electric and hybrid vehicles on a grid with
      positive carbon intensity. */
  lemma RateFallsWithEfficiency(v: Vehicle, e1: real, e2: real, gridIntensity: real)
    requires v.fuel.Known() && 0.0 < e1 < e2
    requires v.fuel.Combustion() || gridIntensity > 0.0 || (v.fuel.Hybrid? && gridIntensity >= 0.0)
    ensures OperationalEmissionPerKm(v.(midcEfficiency := Some(e2)), gridIntensity).value
          < OperationalEmissionPerKm(v.(midcEfficiency := Some(e1)), gridIntensity).value
  {
    assert Efficiency(v.(midcEfficiency := Some(e1))) == e1;
    assert Efficiency(v.(midcEfficiency := Some(e2))) == e2;
    match v.fuel
    case Petrol => ReciprocalFalls(e1, e2, PetrolFactor);
    case Diesel => ReciprocalFalls(e1, e2, DieselFactor);
    case Cng => ReciprocalFalls(e1, e2, CngFactor);
    case Electric =>
      ReciprocalFalls(e1, e2, gridIntensity);
      assert (1.0 / e2) * gridIntensity * ChargingLossFactor < (1.0 / e1) * gridIntensity * ChargingLossFactor;
    case Hybrid => HybridRateFalls(e1, e2, Truthy(v.batteryCapacityKwh), gridIntensity);
  }

  /** The hybrid case: the petrol share falls strictly, and the electric
      share falls too, or stays 0 without a battery figure or on a zero
      grid. */
  lemma HybridRateFalls(e1: real, e2: real, hasBattery: bool, gridIntensity: real)
    requires 0.0 < e1 < e2 && gridIntensity >= 0.0
    ensures RateFor(Hybrid, e2, hasBattery, gridIntensity).value < RateFor(Hybrid, e1, hasBattery, gridIntensity).value
  {
    ReciprocalFalls(e1, e2, PetrolFactor);
    var electric1 := if hasBattery then (1.0 / (e1 * HybridEfficiencyPenalty)) * gridIntensity * ChargingLossFactor else 0.0;
    var electric2 := if hasBattery then (1.0 / (e2 * HybridEfficiencyPenalty)) * gridIntensity * ChargingLossFactor else 0.0;
    if hasBattery && gridIntensity > 0.0 {
      ReciprocalFalls(e1 * HybridEfficiencyPenalty, e2 * HybridEfficiencyPenalty, gridIntensity);
      assert electric2 < electric1;
    }
    assert electric2 <= electric1;
    HybridShareOrder((1.0 / e1) * PetrolFactor, (1.0 / e2) * PetrolFactor, electric1, electric2);
  }

  lemma HybridShareOrder(petrol1: real, petrol2: real, electric1: real, electric2: real)
    requires petrol2 < petrol1 && electric2 <= electric1
    ensures (1.0 - HybridElectricFraction) * petrol2 + HybridElectricFraction * electric2
          < (1.0 - HybridElectricFraction) * petrol1 + HybridElectricFraction * electric1
  {
  }

  // ---------------------------------------------------------------------
  // Manufacturing and disposal
  // ---------------------------------------------------------------------

  /** The fallback heuristic: 4 kg CO2 per kg of kerb weight (1200 kg when the
      weight is missing or 0) plus 150 kg CO2 per kWh of battery. */
  function EstimateManufacturingEmissions(v: Vehicle): (r: real)
    ensures r == KgCo2PerKgWeight * OrDefault(v.kerbWeightKg, DefaultKerbWeightKg)
               + KgCo2PerBatteryKwh * Num(v.batteryCapacityKwh)
  {
    var weight := OrDefault(v.kerbWeightKg, DefaultKerbWeightKg);
    var baseEmissions := weight * KgCo2PerKgWeight;
    if Truthy(v.batteryCapacityKwh)
    then baseEmissions + v.batteryCapacityKwh.value * KgCo2PerBatteryKwh
    else baseEmissions
  }

  /** The explicit manufacturing figure, or the heuristic when it is missing
      or 0 (`manufacturing_emissions_kg || estimate`). */
  function ManufacturingKg(v: Vehicle): (r: real)
    ensures Truthy(v.manufacturingEmissionsKg) ==> r == v.manufacturingEmissionsKg.value
    ensures !Truthy(v.manufacturingEmissionsKg) ==> r == EstimateManufacturingEmissions(v)
  {
    if Truthy(v.manufacturingEmissionsKg) then v.manufacturingEmissionsKg.value
    else EstimateManufacturingEmissions(v)
  }

  /** A battery over 5 kWh without a recycling programme is penalised. */
  predicate DisposalPenaltyApplies(v: Vehicle)
  {
    !v.hasRecyclingProgram && Num(v.batteryCapacityKwh) > PenaltyBatteryKwh
  }

  /** The explicit disposal figure (0 when missing), times 1.5 exactly when
      the penalty applies. */
  function DisposalKg(v: Vehicle): (r: real)
    ensures r == (if DisposalPenaltyApplies(v) then UnmanagedDisposalPenalty else 1.0) * Num(v.disposalEmissionsKg)
  {
    var disposalKg := OrDefault(v.disposalEmissionsKg, 0.0);
    if !v.hasRecyclingProgram && Truthy(v.batteryCapacityKwh) && v.batteryCapacityKwh.value > PenaltyBatteryKwh
    then disposalKg * UnmanagedDisposalPenalty
    else disposalKg
  }

  /** A 0 in the manufacturing column is read exactly like a missing value. */
  lemma ZeroManufacturingIsAbsent(v: Vehicle)
    ensures ManufacturingKg(v.(manufacturingEmissionsKg := Some(0.0)))
         == ManufacturingKg(v.(manufacturingEmissionsKg := None))
  {
  }

  /** With non-negative inputs the estimate is at least the weight term, and
      never less than 4800 kg CO2 when the weight is unknown. */
  lemma EstimateBounds(v: Vehicle)
    requires Num(v.batteryCapacityKwh) >= 0.0
    ensures EstimateManufacturingEmissions(v) >= KgCo2PerKgWeight * OrDefault(v.kerbWeightKg, DefaultKerbWeightKg)
    ensures !Truthy(v.kerbWeightKg) ==> EstimateManufacturingEmissions(v) >= 4800.0
  {
  }

  /** The manufacturing figure never reads the disposal column. */
  lemma ManufacturingIgnoresDisposal(v: Vehicle, disposal: Option<real>)
    ensures ManufacturingKg(v.(disposalEmissionsKg := disposal)) == ManufacturingKg(v)
  {
    assert EstimateManufacturingEmissions(v.(disposalEmissionsKg := disposal)) == EstimateManufacturingEmissions(v);
  }

  // ---------------------------------------------------------------------
  // Lifecycle aggregation
  // ---------------------------------------------------------------------

  /** CITY 1.15, HIGHWAY 0.90, and 1.0 for MIXED or any other string. */
  function UsageMultiplier(p: UsagePattern): (r: real)
    ensures HighwayMultiplier <= r <= CityMultiplier
    ensures r == MixedMultiplier <==> p.Mixed? || p.OtherPattern?
  {
    match p
    case City => CityMultiplier
    case Highway => HighwayMultiplier
    case Mixed => MixedMultiplier
    case OtherPattern(_) => MixedMultiplier
  }

  datatype Emissions = Emissions(
    manufacturingKg: int,
    operationalKg: int,
    disposalKg: int,
    totalKg: int,
    emissionPerKm: real,
    totalDistanceKm: real,
    dailyKm: real,
    years: real,
    usagePattern: UsagePattern,
    gridIntensityUsed: real)

  /** The output record: every `_kg` field rounds its own unrounded value,
      and the total rounds the unrounded sum, so it may differ by one from
      the sum of the rounded parts. The per-km rate is the vehicle's rate
      times the usage multiplier. */
  function Assemble(manufacturing: real, rate: real, multiplier: real, distance: real, disposal: real,
                    dailyKm: real, years: real, usagePattern: UsagePattern, gridIntensity: real): (e: Emissions)
    ensures e.manufacturingKg == Round(manufacturing)
    ensures e.operationalKg == Round(rate * multiplier * distance)
    ensures e.disposalKg == Round(disposal)
    ensures e.totalKg == Round(manufacturing + rate * multiplier * distance + disposal)
    ensures -1 <= e.totalKg - (e.manufacturingKg + e.operationalKg + e.disposalKg) <= 1
    ensures e.emissionPerKm == RoundScaled(rate * multiplier, 1000) && IsScaled(e.emissionPerKm, 1000)
    ensures e.totalDistanceKm == distance && e.dailyKm == dailyKm && e.years == years
    ensures e.usagePattern == usagePattern && e.gridIntensityUsed == gridIntensity
  {
    RoundSumOfThree(manufacturing, rate * multiplier * distance, disposal);
    Emissions(Round(manufacturing), Round(rate * multiplier * distance), Round(disposal),
              Round(manufacturing + rate * multiplier * distance + disposal),
              RoundScaled(rate * multiplier, 1000), distance, dailyKm, years, usagePattern, gridIntensity)
  }

  /** The lifecycle cost of one vehicle for one usage profile. */
  function CalculateLifecycleEmissions(v: Vehicle, dailyKm: real, years: real, gridIntensity: real,
                                       usagePattern: UsagePattern): (r: Result<Emissions>)
    requires Efficiency(v) > 0.0
    ensures r.Err? <==> v.fuel.Unrecognised?
    ensures r.Err? ==> r.error == UnknownFuelType(v.fuel.name)
    ensures r.Ok? ==> r.value == Assemble(
      ManufacturingKg(v),
      OperationalEmissionPerKm(v, gridIntensity).value, UsageMultiplier(usagePattern),
      dailyKm * DaysPerYear * years,
      DisposalKg(v),
      dailyKm, years, usagePattern, gridIntensity)
  {
    match OperationalEmissionPerKm(v, gridIntensity)
    case Err(e) => Err(e)
    case Ok(rate) =>
      Ok(Assemble(ManufacturingKg(v), rate, UsageMultiplier(usagePattern), dailyKm * DaysPerYear * years, DisposalKg(v),
                  dailyKm, years, usagePattern, gridIntensity))
  }

  /** The successful result of a lifecycle calculation for a known fuel. */
  function Lifecycle(v: Vehicle, dailyKm: real, years: real, gridIntensity: real, usagePattern: UsagePattern): Emissions
    requires Efficiency(v) > 0.0 && v.fuel.Known()
  {
    CalculateLifecycleEmissions(v, dailyKm, years, gridIntensity, usagePattern).value
  }

  /** A usage pattern with a larger multiplier costs at least as much, in
      operational and in total emissions, for the same vehicle and profile:
      CITY (1.15) over MIXED (1.0), MIXED over HIGHWAY (0.90). */
  lemma UsagePatternOrdering(v: Vehicle, dailyKm: real, years: real, gridIntensity: real,
                             hi: UsagePattern, lo: UsagePattern)
    requires Efficiency(v) > 0.0 && v.fuel.Known()
    requires dailyKm >= 0.0 && years >= 0.0 && gridIntensity >= 0.0
    requires UsageMultiplier(hi) >= UsageMultiplier(lo)
    ensures Lifecycle(v, dailyKm, years, gridIntensity, hi).operationalKg
         >= Lifecycle(v, dailyKm, years, gridIntensity, lo).operationalKg
    ensures Lifecycle(v, dailyKm, years, gridIntensity, hi).totalKg
         >= Lifecycle(v, dailyKm, years, gridIntensity, lo).totalKg
  {
    // The arguments are spelled out rather than bound to local variables, so
    // that the solver sees the very terms the lifecycle contract mentions.
    assert dailyKm * DaysPerYear * years >= 0.0;
    RateIsPositive(v, gridIntensity);
    AssembleOrder(ManufacturingKg(v), OperationalEmissionPerKm(v, gridIntensity).value, dailyKm * DaysPerYear * years,
                  DisposalKg(v), dailyKm, years, gridIntensity, hi, lo);
  }

  /** The three named patterns are ordered CITY, MIXED, HIGHWAY; any other
      pattern string is weighted exactly like MIXED. */
  lemma MultiplierRanking(other: string)
    requires OtherPattern(other).WellFormed()
    ensures UsageMultiplier(City) > UsageMultiplier(Mixed) > UsageMultiplier(Highway)
    ensures UsageMultiplier(OtherPattern(other)) == UsageMultiplier(Mixed)
  {
  }

  /** An unknown pattern string is priced exactly like MIXED: the two
      results differ only in the pattern they echo back. */
  lemma OtherPatternIsMixed(v: Vehicle, dailyKm: real, years: real, gridIntensity: real, other: string)
    requires Efficiency(v) > 0.0 && v.fuel.Known() && OtherPattern(other).WellFormed()
    ensures Lifecycle(v, dailyKm, years, gridIntensity, OtherPattern(other))
         == Lifecycle(v, dailyKm, years, gridIntensity, Mixed).(usagePattern := OtherPattern(other))
  {
    LifecycleIsAssembled(v, dailyKm, years, gridIntensity, OtherPattern(other));
    LifecycleIsAssembled(v, dailyKm, years, gridIntensity, Mixed);
    assert UsageMultiplier(OtherPattern(other)) == UsageMultiplier(Mixed);
    AssembleEchoesPattern(ManufacturingKg(v), OperationalEmissionPerKm(v, gridIntensity).value, UsageMultiplier(Mixed),
                          dailyKm * DaysPerYear * years, DisposalKg(v), dailyKm, years, OtherPattern(other), Mixed,
                          gridIntensity);
  }

  lemma LifecycleIsAssembled(v: Vehicle, dailyKm: real, years: real, gridIntensity: real, usagePattern: UsagePattern)
    requires Efficiency(v) > 0.0 && v.fuel.Known()
    ensures Lifecycle(v, dailyKm, years, gridIntensity, usagePattern)
         == Assemble(ManufacturingKg(v), OperationalEmissionPerKm(v, gridIntensity).value, UsageMultiplier(usagePattern),
                     dailyKm * DaysPerYear * years, DisposalKg(v), dailyKm, years, usagePattern, gridIntensity)
  {
  }

  /** The pattern itself is only echoed back. */
  lemma AssembleEchoesPattern(manufacturing: real, rate: real, multiplier: real, distance: real, disposal: real,
                              dailyKm: real, years: real, p: UsagePattern, q: UsagePattern, gridIntensity: real)
    ensures Assemble(manufacturing, rate, multiplier, distance, disposal, dailyKm, years, p, gridIntensity)
         == Assemble(manufacturing, rate, multiplier, distance, disposal, dailyKm, years, q, gridIntensity).(usagePattern := p)
  {
  }

  /** A larger usage multiplier gives at least as large rounded outputs. */
  lemma AssembleOrder(mfg: real, rate: real, distance: real, disposal: real, dailyKm: real, years: real,
                      gridIntensity: real, hi: UsagePattern, lo: UsagePattern)
    requires rate >= 0.0 && distance >= 0.0
    requires UsageMultiplier(hi) >= UsageMultiplier(lo)
    ensures Assemble(mfg, rate, UsageMultiplier(hi), distance, disposal, dailyKm, years, hi, gridIntensity).operationalKg
         >= Assemble(mfg, rate, UsageMultiplier(lo), distance, disposal, dailyKm, years, lo, gridIntensity).operationalKg
    ensures Assemble(mfg, rate, UsageMultiplier(hi), distance, disposal, dailyKm, years, hi, gridIntensity).totalKg
         >= Assemble(mfg, rate, UsageMultiplier(lo), distance, disposal, dailyKm, years, lo, gridIntensity).totalKg
  {
    MultiplierOrder(rate, distance, mfg, disposal, hi, lo);
  }

  lemma MultiplierOrder(rate: real, distance: real, mfg: real, disposal: real, hi: UsagePattern, lo: UsagePattern)
    requires rate >= 0.0 && distance >= 0.0
    requires UsageMultiplier(hi) >= UsageMultiplier(lo)
    ensures Round(rate * UsageMultiplier(hi) * distance) >= Round(rate * UsageMultiplier(lo) * distance)
    ensures Round(mfg + rate * UsageMultiplier(hi) * distance + disposal)
         >= Round(mfg + rate * UsageMultiplier(lo) * distance + disposal)
  {
    ProductOrder(rate, UsageMultiplier(hi), UsageMultiplier(lo), distance);
    RoundMonotone(rate * UsageMultiplier(lo) * distance, rate * UsageMultiplier(hi) * distance);
    RoundMonotone(mfg + rate * UsageMultiplier(lo) * distance + disposal,
                  mfg + rate * UsageMultiplier(hi) * distance + disposal);
  }

  lemma ProductOrder(rate: real, h: real, l: real, distance: real)
    requires rate >= 0.0 && distance >= 0.0 && h >= l
    ensures rate * h * distance >= rate * l * distance
  {
    assert rate * (h - l) >= 0.0;
    assert rate * h >= rate * l;
    assert (rate * h - rate * l) * distance >= 0.0;
  }

  // ---------------------------------------------------------------------
  // Break-even
  // ---------------------------------------------------------------------

  /** Either the electric vehicle never recovers its upfront debt, or it does
      after a number of km, years (1 decimal) and months. */
  datatype Breakeven =
    | Never(evPerKm: real, icePerKm: real)
    | BreaksEven(breakevenKm: int, breakevenYears: real, breakevenMonths: int,
                 emissionDebt: int, savingsPerKm: real)

  /** The extra upfront carbon (manufacturing plus disposal, as rounded in
      the two results) the electric vehicle starts with. */
  function EmissionDebt(ev: Emissions, ice: Emissions): (d: int)
    ensures d > 0 <==> ev.manufacturingKg + ev.disposalKg > ice.manufacturingKg + ice.disposalKg
    ensures d == 0 <==> ev.manufacturingKg + ev.disposalKg == ice.manufacturingKg + ice.disposalKg
  {
    (ev.manufacturingKg + ev.disposalKg) - (ice.manufacturingKg + ice.disposalKg)
  }

  /** `daily_km || 40`: the electric result's daily distance, 40 when it is 0. */
  function BreakevenDailyKm(ev: Emissions): (d: real)
    ensures d != 0.0
    ensures ev.dailyKm != 0.0 ==> d == ev.dailyKm
  {
    if ev.dailyKm != 0.0 then ev.dailyKm else DefaultBreakevenDailyKm
  }

  /** Linear break-even on the ROUNDED fields of two lifecycle results: the
      extra upfront carbon is paid back by the per-km saving. */
  function CalculateBreakeven(ev: Emissions, ice: Emissions): (r: Breakeven)
    ensures r.Never? <==> ev.emissionPerKm >= ice.emissionPerKm
    ensures r.Never? ==> r == Never(ev.emissionPerKm, ice.emissionPerKm)
    ensures r.BreaksEven? ==>
      r == BreakevenPoint(EmissionDebt(ev, ice), ice.emissionPerKm - ev.emissionPerKm, BreakevenDailyKm(ev))
    ensures r.BreaksEven? && IsScaled(ev.emissionPerKm, 1000) && IsScaled(ice.emissionPerKm, 1000) ==>
      r.savingsPerKm == ice.emissionPerKm - ev.emissionPerKm
  {
    if ev.emissionPerKm >= ice.emissionPerKm then
      Never(ev.emissionPerKm, ice.emissionPerKm)
    else
      assert IsScaled(ev.emissionPerKm, 1000) && IsScaled(ice.emissionPerKm, 1000) ==>
             RoundScaled(ice.emissionPerKm - ev.emissionPerKm, 1000) == ice.emissionPerKm - ev.emissionPerKm by {
        if IsScaled(ev.emissionPerKm, 1000) && IsScaled(ice.emissionPerKm, 1000) {
          SavingsExact(ev.emissionPerKm, ice.emissionPerKm);
        }
      }
      BreakevenPoint(EmissionDebt(ev, ice), ice.emissionPerKm - ev.emissionPerKm, BreakevenDailyKm(ev))
  }

  /** The break-even figures for a debt, a positive per-km saving and a daily
      distance: the distance, its duration in years (1 decimal) and months,
      and the debt and saving echoed back. */
  function BreakevenPoint(debt: int, savings: real, daily: real): (b: Breakeven)
    requires savings > 0.0 && daily != 0.0
    ensures b.BreaksEven?
    ensures b.emissionDebt == debt
    ensures b.breakevenKm == Round(debt as real / savings)
    ensures b.breakevenYears == RoundScaled(debt as real / savings / daily / DaysPerYear, 10)
    ensures b.breakevenMonths == Round(debt as real / savings / daily / DaysPerYear * 12.0)
    ensures b.savingsPerKm == RoundScaled(savings, 1000)
    ensures debt <= 0 ==> b.breakevenKm <= 0
    ensures debt >= 0 ==> b.breakevenKm >= 0
  {
    var breakevenKm := debt as real / savings;
    var breakevenDays := breakevenKm / daily;
    var breakevenYears := breakevenDays / DaysPerYear;
    RoundOfInteger(debt);
    DebtSign(debt, savings);
    BreaksEven(Round(breakevenKm), RoundScaled(breakevenYears, 10), Round(breakevenYears * 12.0),
               Round(debt as real), RoundScaled(savings, 1000))
  }

  /** At the unrounded break-even distance the two cumulative lines meet:
      the electric vehicle's upfront carbon plus its per-km rate times the
      distance equals the combustion vehicle's. */
  lemma BreakevenIsCrossing(ev: Emissions, ice: Emissions)
    requires ev.emissionPerKm < ice.emissionPerKm
    ensures
      var km := EmissionDebt(ev, ice) as real / (ice.emissionPerKm - ev.emissionPerKm);
      && (ev.manufacturingKg + ev.disposalKg) as real + ev.emissionPerKm * km
         == (ice.manufacturingKg + ice.disposalKg) as real + ice.emissionPerKm * km
      && CalculateBreakeven(ev, ice).breakevenKm as real - 0.5 <= km < CalculateBreakeven(ev, ice).breakevenKm as real + 0.5
  {
    var savings := ice.emissionPerKm - ev.emissionPerKm;
    var km := EmissionDebt(ev, ice) as real / savings;
    assert km * savings == EmissionDebt(ev, ice) as real;
    assert ice.emissionPerKm * km - ev.emissionPerKm * km == km * savings;
  }

  lemma DebtSign(debt: int, savings: real)
    requires savings > 0.0
    ensures debt <= 0 ==> Round(debt as real / savings) <= 0
    ensures debt >= 0 ==> Round(debt as real / savings) >= 0
  {
    if debt <= 0 {
      assert debt as real / savings <= 0.0;
    }
    if debt >= 0 {
      assert debt as real / savings >= 0.0;
    }
  }

  /** The difference of two 3-decimal rates already has 3 decimals, so the
      reported saving is the exact difference. */
  lemma SavingsExact(a: real, b: real)
    requires IsScaled(a, 1000) && IsScaled(b, 1000)
    ensures RoundScaled(b - a, 1000) == b - a
  {
    var ka := (a * 1000.0).Floor;
    var kb := (b * 1000.0).Floor;
    assert a * 1000.0 == ka as real;
    assert b * 1000.0 == kb as real;
    assert (b - a) * 1000.0 == b * 1000.0 - a * 1000.0;
    assert (b - a) * 1000.0 == (kb - ka) as real;
    assert ((kb - ka) as real).Floor == kb - ka;
    assert IsScaled(b - a, 1000);
    RoundScaledIdempotent(b - a, 1000);
  }

  // ---------------------------------------------------------------------
  // Total cost of ownership
  // ---------------------------------------------------------------------

  /** The cost breakdown. `costPerKm` is `None` when the distance is 0: the
      original divides by it and serialises the resulting NaN or Infinity
      as JSON `null`. */
  datatype Tco = Tco(
    purchaseCost: int,
    fuelCost: int,
    insuranceCost: int,
    maintenanceCost: int,
    totalCost: int,
    costPerKm: Option<real>)

  /** The fuel or electricity bill over `totalKm`; 0 for an unrecognised fuel
      type (the cost switch has no default case and does not throw). */
  function FuelCost(v: Vehicle, totalKm: real, fuelPrice: real, electricityPrice: real): (r: real)
    requires Efficiency(v) > 0.0
    ensures v.fuel.Unrecognised? ==> r == 0.0
    ensures v.fuel.Combustion() ==> r * Efficiency(v) == totalKm * fuelPrice
    ensures v.fuel.Electric? ==> r * Efficiency(v) == totalKm * electricityPrice * ChargingLossFactor
  {
    var efficiency := Efficiency(v);
    match v.fuel
    case Petrol => (totalKm / efficiency) * fuelPrice
    case Diesel => (totalKm / efficiency) * fuelPrice
    case Cng => (totalKm / efficiency) * fuelPrice
    case Electric => (totalKm / efficiency) * electricityPrice * ChargingLossFactor
    case Hybrid => HybridFuelCost(totalKm, efficiency, fuelPrice, electricityPrice)
    case Unrecognised(_) => 0.0
  }

  /** 65% of the distance on petrol, 35% on electricity at 1.3 times the
      efficiency (the consumption divided by 1.3), with a 0 electricity
      price read as 8 (`electricityPrice || 8`). */
  function HybridFuelCost(totalKm: real, efficiency: real, fuelPrice: real, electricityPrice: real): (r: real)
    requires efficiency > 0.0
    ensures totalKm >= 0.0 && fuelPrice >= 0.0 && electricityPrice >= 0.0 ==> r >= 0.0
  {
    var petrolCost := ((1.0 - HybridElectricFraction) * totalKm / efficiency) * fuelPrice;
    var elecCost := (HybridElectricFraction * totalKm / (efficiency * HybridEfficiencyPenalty))
                    * (if electricityPrice != 0.0 then electricityPrice else DefaultElectricityPrice)
                    * ChargingLossFactor;
    petrolCost + elecCost
  }

  /** The hybrid bill is the bill of the same record as a petrol car over
      65% of the distance plus its bill as an electric car with 1.3 times
      the efficiency over the other 35%, at the fallback electricity price. */
  lemma HybridCostIsBlend(v: Vehicle, totalKm: real, fuelPrice: real, electricityPrice: real)
    requires v.fuel.Hybrid? && Efficiency(v) > 0.0
    ensures FuelCost(v, totalKm, fuelPrice, electricityPrice)
         == FuelCost(WithFuel(v, Petrol, Efficiency(v)), (1.0 - HybridElectricFraction) * totalKm, fuelPrice, electricityPrice)
          + FuelCost(WithFuel(v, Electric, Efficiency(v) * HybridEfficiencyPenalty), HybridElectricFraction * totalKm,
                     fuelPrice, if electricityPrice != 0.0 then electricityPrice else DefaultElectricityPrice)
  {
    assert Efficiency(WithFuel(v, Petrol, Efficiency(v))) == Efficiency(v);
    assert Efficiency(WithFuel(v, Electric, Efficiency(v) * HybridEfficiencyPenalty)) == Efficiency(v) * HybridEfficiencyPenalty;
  }

  function MaintenancePerYear(v: Vehicle): (r: real)
    ensures r == (if v.fuel.Electric? then 5000.0 else 12000.0)
  {
    if v.fuel.Electric? then ElectricMaintenancePerYear else OtherMaintenancePerYear
  }

  /** The output record: each cost rounds its own unrounded value, the total
      rounds the unrounded sum (so it may differ by up to two from the sum of
      the rounded parts), and the cost per km keeps two decimals. */
  function AssembleTco(purchase: real, fuel: real, insurancePerYear: real, maintenancePerYear: real,
                       years: real, totalKm: real): (t: Tco)
    ensures t.purchaseCost == Round(purchase)
    ensures t.fuelCost == Round(fuel)
    ensures t.insuranceCost == Round(insurancePerYear * years)
    ensures t.maintenanceCost == Round(maintenancePerYear * years)
    ensures t.totalCost == Round(purchase + fuel + insurancePerYear * years + maintenancePerYear * years)
    ensures -2 <= t.totalCost - (t.purchaseCost + t.fuelCost + t.insuranceCost + t.maintenanceCost) <= 2
    ensures t.costPerKm.None? <==> totalKm == 0.0
    ensures t.costPerKm.Some? ==>
      t.costPerKm.value == RoundScaled((purchase + fuel + insurancePerYear * years + maintenancePerYear * years) / totalKm, 100)
      && IsScaled(t.costPerKm.value, 100)
  {
    var sum := purchase + fuel + insurancePerYear * years + maintenancePerYear * years;
    RoundSumOfFour(purchase, fuel, insurancePerYear * years, maintenancePerYear * years);
    Tco(Round(purchase), Round(fuel), Round(insurancePerYear * years), Round(maintenancePerYear * years),
        Round(sum), if totalKm == 0.0 then None else Some(RoundScaled(sum / totalKm, 100)))
  }

  /** Purchase (price in lakh times 100000, 0 when missing), fuel over the
      distance, insurance at 3% of the price per year and maintenance (5000 a
      year for an EV, 12000 otherwise) over the ownership period. */
  function CalculateTco(v: Vehicle, dailyKm: real, years: real, fuelPrice: real, electricityPrice: real): (r: Tco)
    requires Efficiency(v) > 0.0
    ensures r.purchaseCost == Round(Num(v.priceLakh) * RupeesPerLakh)
    ensures r.insuranceCost == Round(Num(v.priceLakh) * RupeesPerLakh * InsuranceRate * years)
    ensures r.maintenanceCost == Round(MaintenancePerYear(v) * years)
    ensures r.fuelCost == Round(FuelCost(v, dailyKm * DaysPerYear * years, fuelPrice, electricityPrice))
    ensures -2 <= r.totalCost - (r.purchaseCost + r.fuelCost + r.insuranceCost + r.maintenanceCost) <= 2
    ensures r.costPerKm.None? <==> dailyKm * DaysPerYear * years == 0.0
    ensures r == AssembleTco(
      Num(v.priceLakh) * RupeesPerLakh,
      FuelCost(v, dailyKm * DaysPerYear * years, fuelPrice, electricityPrice),
      Num(v.priceLakh) * RupeesPerLakh * InsuranceRate,
      MaintenancePerYear(v),
      years,
      dailyKm * DaysPerYear * years)
  {
    AssembleTco(Num(v.priceLakh) * RupeesPerLakh,
                FuelCost(v, dailyKm * DaysPerYear * years, fuelPrice, electricityPrice),
                Num(v.priceLakh) * RupeesPerLakh * InsuranceRate,
                MaintenancePerYear(v), years, dailyKm * DaysPerYear * years)
  }

  /** A hybrid's missing (0) electricity price falls back to 8; an electric
      vehicle's does not, so its fuel cost becomes 0. */
  lemma ElectricityPriceFallback(v: Vehicle, totalKm: real, fuelPrice: real)
    requires Efficiency(v) > 0.0
    ensures v.fuel.Hybrid? ==> FuelCost(v, totalKm, fuelPrice, 0.0) == FuelCost(v, totalKm, fuelPrice, DefaultElectricityPrice)
    ensures v.fuel.Electric? ==> FuelCost(v, totalKm, fuelPrice, 0.0) == 0.0
  {
  }

  /** An unrecognised fuel type costs only purchase, insurance and upkeep. */
  lemma UnknownFuelCostsNothingToRun(v: Vehicle, dailyKm: real, years: real, fuelPrice: real, electricityPrice: real)
    requires Efficiency(v) > 0.0 && v.fuel.Unrecognised?
    ensures CalculateTco(v, dailyKm, years, fuelPrice, electricityPrice).fuelCost == 0
    ensures CalculateTco(v, dailyKm, years, fuelPrice, electricityPrice).maintenanceCost
         == Round(OtherMaintenancePerYear * years)
  {
    RoundOfInteger(0);
  }

  /** Keeping the vehicle longer never makes it cheaper, provided prices are
      not negative. */
  lemma TcoGrowsWithYears(v: Vehicle, dailyKm: real, y1: real, y2: real, fuelPrice: real, electricityPrice: real)
    requires Efficiency(v) > 0.0 && dailyKm >= 0.0 && 0.0 <= y1 <= y2
    requires Num(v.priceLakh) >= 0.0 && fuelPrice >= 0.0 && electricityPrice >= 0.0
    ensures CalculateTco(v, dailyKm, y1, fuelPrice, electricityPrice).totalCost
         <= CalculateTco(v, dailyKm, y2, fuelPrice, electricityPrice).totalCost
  {
    ProductOrder(dailyKm, DaysPerYear, DaysPerYear, y1);
    assert dailyKm * DaysPerYear * y1 <= dailyKm * DaysPerYear * y2 by {
      assert dailyKm * DaysPerYear >= 0.0;
      assert dailyKm * DaysPerYear * (y2 - y1) >= 0.0;
    }
    FuelCostGrows(v, dailyKm * DaysPerYear * y1, dailyKm * DaysPerYear * y2, fuelPrice, electricityPrice);
    AssembleTcoGrows(Num(v.priceLakh) * RupeesPerLakh,
                     FuelCost(v, dailyKm * DaysPerYear * y1, fuelPrice, electricityPrice),
                     FuelCost(v, dailyKm * DaysPerYear * y2, fuelPrice, electricityPrice),
                     Num(v.priceLakh) * RupeesPerLakh * InsuranceRate, MaintenancePerYear(v),
                     y1, y2, dailyKm * DaysPerYear * y1, dailyKm * DaysPerYear * y2);
  }

  lemma AssembleTcoGrows(purchase: real, fuel1: real, fuel2: real, insurancePerYear: real, maintenancePerYear: real,
                         y1: real, y2: real, km1: real, km2: real)
    requires fuel1 <= fuel2 && insurancePerYear >= 0.0 && maintenancePerYear >= 0.0 && y1 <= y2
    ensures AssembleTco(purchase, fuel1, insurancePerYear, maintenancePerYear, y1, km1).totalCost
         <= AssembleTco(purchase, fuel2, insurancePerYear, maintenancePerYear, y2, km2).totalCost
  {
    ScaleOrder(insurancePerYear, y1, y2);
    ScaleOrder(maintenancePerYear, y1, y2);
    SumOfFourOrder(purchase, fuel1, fuel2, insurancePerYear * y1, insurancePerYear * y2,
                   maintenancePerYear * y1, maintenancePerYear * y2);
  }

  lemma ScaleOrder(k: real, y1: real, y2: real)
    requires k >= 0.0 && y1 <= y2
    ensures k * y1 <= k * y2
  {
    assert k * (y2 - y1) >= 0.0;
  }

  lemma SumOfFourOrder(a: real, b1: real, b2: real, c1: real, c2: real, d1: real, d2: real)
    requires b1 <= b2 && c1 <= c2 && d1 <= d2
    ensures Round(a + b1 + c1 + d1) <= Round(a + b2 + c2 + d2)
  {
    RoundMonotone(a + b1 + c1 + d1, a + b2 + c2 + d2);
  }

  /** Driving further never lowers the fuel bill, for non-negative prices. */
  lemma FuelCostGrows(v: Vehicle, km1: real, km2: real, fuelPrice: real, electricityPrice: real)
    requires Efficiency(v) > 0.0 && km1 <= km2 && fuelPrice >= 0.0 && electricityPrice >= 0.0
    ensures FuelCost(v, km1, fuelPrice, electricityPrice) <= FuelCost(v, km2, fuelPrice, electricityPrice)
  {
    var e := Efficiency(v);
    match v.fuel
    case Petrol => QuotientOrder(km1, km2, e, fuelPrice);
    case Diesel => QuotientOrder(km1, km2, e, fuelPrice);
    case Cng => QuotientOrder(km1, km2, e, fuelPrice);
    case Electric =>
      QuotientOrder(km1, km2, e, electricityPrice);
      assert (km1 / e) * electricityPrice * ChargingLossFactor <= (km2 / e) * electricityPrice * ChargingLossFactor;
    case Hybrid => HybridFuelCostGrows(km1, km2, e, fuelPrice, electricityPrice);
    case Unrecognised(_) =>
  }

  lemma HybridFuelCostGrows(km1: real, km2: real, e: real, fuelPrice: real, electricityPrice: real)
    requires e > 0.0 && km1 <= km2 && fuelPrice >= 0.0 && electricityPrice >= 0.0
    ensures HybridFuelCost(km1, e, fuelPrice, electricityPrice) <= HybridFuelCost(km2, e, fuelPrice, electricityPrice)
  {
    var price := if electricityPrice != 0.0 then electricityPrice else DefaultElectricityPrice;
    QuotientOrder((1.0 - HybridElectricFraction) * km1, (1.0 - HybridElectricFraction) * km2, e, fuelPrice);
    QuotientOrder(HybridElectricFraction * km1, HybridElectricFraction * km2, e * HybridEfficiencyPenalty, price);
    BlendOrder(((1.0 - HybridElectricFraction) * km1 / e) * fuelPrice, ((1.0 - HybridElectricFraction) * km2 / e) * fuelPrice,
               (HybridElectricFraction * km1 / (e * HybridEfficiencyPenalty)) * price,
               (HybridElectricFraction * km2 / (e * HybridEfficiencyPenalty)) * price);
  }

  lemma BlendOrder(petrol1: real, petrol2: real, elec1: real, elec2: real)
    requires petrol1 <= petrol2 && elec1 <= elec2
    ensures petrol1 + elec1 * ChargingLossFactor <= petrol2 + elec2 * ChargingLossFactor
  {
  }

  lemma QuotientOrder(k1: real, k2: real, e: real, price: real)
    requires e > 0.0 && k1 <= k2 && price >= 0.0
    ensures (k1 / e) * price <= (k2 / e) * price
  {
    assert k2 / e - k1 / e == (k2 - k1) / e;
    assert (k2 / e) * price - (k1 / e) * price == ((k2 - k1) / e) * price;
  }

  // ---------------------------------------------------------------------
  // Greenwash audit
  // ---------------------------------------------------------------------

  /** The five audit rules, in the order the audit applies them. */
  datatype FlagKind =
    | MisleadingZeroEmission
    | HighGridIntensityFlag
    | WltpNotMidc
    | NoRecyclingProgram
    | HighWeightEv
  {
    function Position(): nat
    {
      match this
      case MisleadingZeroEmission => 0
      case HighGridIntensityFlag => 1
      case WltpNotMidc => 2
      case NoRecyclingProgram => 3
      case HighWeightEv => 4
    }

    function Severity(): Severity
    {
      match this
      case MisleadingZeroEmission => High
      case HighGridIntensityFlag => Medium
      case WltpNotMidc => Low
      case NoRecyclingProgram => Medium
      case HighWeightEv => Low
    }
  }

  datatype Severity = Low | Medium | High

  datatype GreenwashFlag = GreenwashFlag(kind: FlagKind, severity: Severity)

  /** The trigger of each rule, stated on its own. */
  predicate Triggered(k: FlagKind, v: Vehicle, gridIntensity: real)
    ensures Triggered(k, v, gridIntensity) && k != WltpNotMidc ==> v.fuel.Electric? || v.fuel.Hybrid?
    ensures Triggered(k, v, gridIntensity) && k != WltpNotMidc && k != NoRecyclingProgram ==> v.fuel.Electric?
  {
    match k
    case MisleadingZeroEmission => v.fuel.Electric? && Num(v.manufacturingEmissionsKg) > ZeroEmissionMfgKg
    case HighGridIntensityFlag => v.fuel.Electric? && gridIntensity > HighGridIntensity
    case WltpNotMidc =>
      Truthy(v.wltpEfficiency) &&
      (!Truthy(v.midcEfficiency) || (v.dataSource.Some? && Includes(v.dataSource.value, "Estimated")))
    case NoRecyclingProgram =>
      (v.fuel.Electric? || v.fuel.Hybrid?) && !v.hasRecyclingProgram && Num(v.batteryCapacityKwh) > PenaltyBatteryKwh
    case HighWeightEv => v.fuel.Electric? && Num(v.kerbWeightKg) > HeavyEvKerbKg
  }

  predicate HasFlag(flags: seq<GreenwashFlag>, k: FlagKind)
  {
    exists i | 0 <= i < |flags| :: flags[i].kind == k
  }

  /** The order in which the audit applies its rules. */
  const AuditOrder: seq<FlagKind> :=
    [MisleadingZeroEmission, HighGridIntensityFlag, WltpNotMidc, NoRecyclingProgram, HighWeightEv]

  /** The reference audit: one flag, with the rule's severity, for each rule
      of `rules` that fires, in the order of `rules`. */
  function Audit(rules: seq<FlagKind>, v: Vehicle, gridIntensity: real): (flags: seq<GreenwashFlag>)
    ensures |flags| <= |rules|
    decreases |rules|
  {
    if rules == [] then []
    else
      var last := rules[|rules| - 1];
      Audit(rules[..|rules| - 1], v, gridIntensity)
      + (if Triggered(last, v, gridIntensity) then [GreenwashFlag(last, last.Severity())] else [])
  }

  /** A kind is flagged exactly when it is one of the rules and it fires;
      every flag carries its kind's severity. */
  lemma {:induction false} AuditFlagsExactlyTheTriggered(rules: seq<FlagKind>, v: Vehicle, gridIntensity: real)
    ensures forall k: FlagKind :: HasFlag(Audit(rules, v, gridIntensity), k) <==> k in rules && Triggered(k, v, gridIntensity)
    ensures forall i | 0 <= i < |Audit(rules, v, gridIntensity)| ::
      Audit(rules, v, gridIntensity)[i].kind in rules
      && Audit(rules, v, gridIntensity)[i].severity == Audit(rules, v, gridIntensity)[i].kind.Severity()
    decreases |rules|
  {
    if rules != [] {
      var init := rules[..|rules| - 1];
      var last := rules[|rules| - 1];
      AuditFlagsExactlyTheTriggered(init, v, gridIntensity);
      var front := Audit(init, v, gridIntensity);
      var back := if Triggered(last, v, gridIntensity) then [GreenwashFlag(last, last.Severity())] else [];
      assert Audit(rules, v, gridIntensity) == front + back;
      assert rules == init + [last];
      forall k: FlagKind
        ensures HasFlag(front + back, k) <==> k in rules && Triggered(k, v, gridIntensity)
      {
        if HasFlag(front, k) {
          var i :| 0 <= i < |front| && front[i].kind == k;
          assert (front + back)[i].kind == k;
        }
        if HasFlag(front + back, k) {
          var i :| 0 <= i < |front + back| && (front + back)[i].kind == k;
          if i < |front| {
            assert front[i].kind == k;
          }
        }
        if k == last && Triggered(k, v, gridIntensity) {
          assert (front + back)[|front|].kind == k;
        }
      }
    }
  }

  /** Rules listed in strictly increasing position give flags in strictly
      increasing position. */
  lemma {:induction false} AuditKeepsRuleOrder(rules: seq<FlagKind>, v: Vehicle, gridIntensity: real)
    requires forall i, j | 0 <= i < j < |rules| :: rules[i].Position() < rules[j].Position()
    ensures forall i, j | 0 <= i < j < |Audit(rules, v, gridIntensity)| ::
      Audit(rules, v, gridIntensity)[i].kind.Position() < Audit(rules, v, gridIntensity)[j].kind.Position()
    decreases |rules|
  {
    if rules != [] {
      var init := rules[..|rules| - 1];
      var last := rules[|rules| - 1];
      AuditKeepsRuleOrder(init, v, gridIntensity);
      AuditFlagsExactlyTheTriggered(init, v, gridIntensity);
      var front := Audit(init, v, gridIntensity);
      forall i | 0 <= i < |front|
        ensures front[i].kind.Position() < last.Position()
      {
        var j :| 0 <= j < |init| && init[j] == front[i].kind;
        assert rules[j] == front[i].kind;
      }
    }
  }

  /** Every kind is one of the audit's rules, and the rules are in order. */
  lemma AuditOrderCoversEveryKind()
    ensures forall k: FlagKind :: k in AuditOrder
    ensures forall i, j | 0 <= i < j < |AuditOrder| :: AuditOrder[i].Position() < AuditOrder[j].Position()
  {
    forall k: FlagKind ensures k in AuditOrder {
      match k
      case MisleadingZeroEmission => assert AuditOrder[0] == k;
      case HighGridIntensityFlag => assert AuditOrder[1] == k;
      case WltpNotMidc => assert AuditOrder[2] == k;
      case NoRecyclingProgram => assert AuditOrder[3] == k;
      case HighWeightEv => assert AuditOrder[4] == k;
    }
  }

  /** Runs the five rules in order and collects a flag for each that fires,
      which is the reference audit over the rule order (whose properties
      `AuditProperties` states). Never fails, whatever the fuel type. */
  method DetectGreenwashFlags(v: Vehicle, gridIntensity: real) returns (flags: seq<GreenwashFlag>)
    ensures flags == Audit(AuditOrder, v, gridIntensity)
  {
    flags := [];
    assert AuditOrder[..0] == [];
    if v.fuel.Electric? && Num(v.manufacturingEmissionsKg) > ZeroEmissionMfgKg {
      flags := flags + [GreenwashFlag(MisleadingZeroEmission, High)];
    }
    assert AuditOrder[..1][..0] == AuditOrder[..0];
    assert flags == Audit(AuditOrder[..1], v, gridIntensity);
    if v.fuel.Electric? && gridIntensity > HighGridIntensity {
      flags := flags + [GreenwashFlag(HighGridIntensityFlag, Medium)];
    }
    assert AuditOrder[..2][..1] == AuditOrder[..1];
    assert flags == Audit(AuditOrder[..2], v, gridIntensity);
    if Truthy(v.wltpEfficiency) &&
       (!Truthy(v.midcEfficiency) || (v.dataSource.Some? && Includes(v.dataSource.value, "Estimated"))) {
      flags := flags + [GreenwashFlag(WltpNotMidc, Low)];
    }
    assert AuditOrder[..3][..2] == AuditOrder[..2];
    assert flags == Audit(AuditOrder[..3], v, gridIntensity);
    if (v.fuel.Electric? || v.fuel.Hybrid?) && !v.hasRecyclingProgram && Num(v.batteryCapacityKwh) > PenaltyBatteryKwh {
      flags := flags + [GreenwashFlag(NoRecyclingProgram, Medium)];
    }
    assert AuditOrder[..4][..3] == AuditOrder[..3];
    assert flags == Audit(AuditOrder[..4], v, gridIntensity);
    if v.fuel.Electric? && Num(v.kerbWeightKg) > HeavyEvKerbKg {
      flags := flags + [GreenwashFlag(HighWeightEv, Low)];
    }
    assert AuditOrder[..5][..4] == AuditOrder[..4];
    assert AuditOrder[..5] == AuditOrder;
  }

  /** The full audit flags exactly the rules that fire, in rule order, each
      with its rule's severity, and is empty exactly when no rule fires. */
  lemma AuditProperties(v: Vehicle, gridIntensity: real)
    ensures forall k: FlagKind :: HasFlag(Audit(AuditOrder, v, gridIntensity), k) <==> Triggered(k, v, gridIntensity)
    ensures forall i, j | 0 <= i < j < |Audit(AuditOrder, v, gridIntensity)| ::
      Audit(AuditOrder, v, gridIntensity)[i].kind.Position() < Audit(AuditOrder, v, gridIntensity)[j].kind.Position()
    ensures forall i | 0 <= i < |Audit(AuditOrder, v, gridIntensity)| ::
      Audit(AuditOrder, v, gridIntensity)[i].severity == Audit(AuditOrder, v, gridIntensity)[i].kind.Severity()
    ensures Audit(AuditOrder, v, gridIntensity) == [] <==> forall k: FlagKind :: !Triggered(k, v, gridIntensity)
  {
    var flags := Audit(AuditOrder, v, gridIntensity);
    AuditOrderCoversEveryKind();
    AuditFlagsExactlyTheTriggered(AuditOrder, v, gridIntensity);
    AuditKeepsRuleOrder(AuditOrder, v, gridIntensity);
    if flags == [] {
      forall k: FlagKind ensures !Triggered(k, v, gridIntensity) {
        assert !HasFlag(flags, k);
      }
    } else {
      assert HasFlag(flags, flags[0].kind);
    }
  }

  /** Changing the manufacturing figure can only switch the zero-emission
      rule; every other rule reads other fields. */
  lemma RulesAreIndependentOfManufacturing(v: Vehicle, gridIntensity: real, mfg: Option<real>, k: FlagKind)
    requires k != MisleadingZeroEmission
    ensures Triggered(k, v.(manufacturingEmissionsKg := mfg), gridIntensity) == Triggered(k, v, gridIntensity)
  {
  }

  /** Only electric and hybrid vehicles can be audited beyond the WLTP rule. */
  lemma CombustionOnlyWltpRule(v: Vehicle, gridIntensity: real, k: FlagKind)
    requires !v.fuel.Electric? && !v.fuel.Hybrid? && Triggered(k, v, gridIntensity)
    ensures k == WltpNotMidc
  {
  }
}
