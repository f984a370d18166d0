/** The plain records that cross the engine's boundary, and the handful of
    JavaScript number conventions the engine relies on: `Math.round`,
    rounding to a number of decimals, nullable database columns read as
    numbers, and the `x || d` fallback that treats 0 like a missing value. */
module Values {

  datatype Option<+T> = None | Some(value: T)

  /** The error the engine raises when a fuel-type switch has no case. */
  datatype EngineError = UnknownFuelType(name: string)

  datatype Result<+T> = Ok(value: T) | Err(error: EngineError)

  // ---------------------------------------------------------------------
  // Numbers
  // ---------------------------------------------------------------------

  /** `Math.round`: the nearest integer, with halves rounded up (towards
      +infinity, also for negative numbers). */
  function Round(x: real): (r: int)
    ensures x - 0.5 < r as real <= x + 0.5
  {
    (x + 0.5).Floor
  }

  /** `Math.round(x * scale) / scale`, the engine's way of keeping a fixed
      number of decimals (scale 10, 100 or 1000). */
  function RoundScaled(x: real, scale: nat): (r: real)
    requires scale > 0
    ensures x - 0.5 / scale as real < r <= x + 0.5 / scale as real
    ensures IsScaled(r, scale)
  {
    var n := Round(x * scale as real);
    var q := n as real / scale as real;
    assert q * scale as real == n as real;
    assert (n as real).Floor == n;
    assert (q * scale as real).Floor == n;
    assert IsScaled(q, scale);
    q
  }

  /** `x` has at most as many decimals as `scale` (10, 100, 1000) allows. */
  predicate IsScaled(x: real, scale: nat)
    requires scale > 0
  {
    (x * (scale as real)).Floor as real == x * (scale as real)
  }

  lemma RoundMonotone(x: real, y: real)
    requires x <= y
    ensures Round(x) <= Round(y)
  {
  }

  lemma RoundOfInteger(n: int)
    ensures Round(n as real) == n
  {
  }

  /** Rounding an already-rounded amount changes nothing. */
  lemma RoundScaledIdempotent(x: real, scale: nat)
    requires scale > 0
    requires IsScaled(x, scale)
    ensures RoundScaled(x, scale) == x
  {
    var k := (x * scale as real).Floor;
    RoundOfInteger(k);
    assert x * scale as real == k as real;
    assert x == k as real / scale as real;
  }

  /** Rounding three parts and then adding them stays within one unit of
      rounding their sum. */
  lemma RoundSumOfThree(a: real, b: real, c: real)
    ensures -1 <= Round(a + b + c) - (Round(a) + Round(b) + Round(c)) <= 1
  {
  }

  /** The same bound for four parts is two units. */
  lemma RoundSumOfFour(a: real, b: real, c: real, d: real)
    ensures -2 <= Round(a + b + c + d) - (Round(a) + Round(b) + Round(c) + Round(d)) <= 2
  {
  }

  // ---------------------------------------------------------------------
  // Nullable columns
  // ---------------------------------------------------------------------

  /** The number a nullable column stands for in arithmetic and in
      comparisons: `null` reads as 0. */
  function Num(o: Option<real>): (r: real)
    ensures o == None ==> r == 0.0
    ensures r != 0.0 ==> o == Some(r)
  {
    if o.Some? then o.value else 0.0
  }

  /** JavaScript truthiness of a nullable number: null and 0 are falsy. */
  predicate Truthy(o: Option<real>)
    ensures Truthy(o) <==> Num(o) != 0.0
  {
    o.Some? && o.value != 0.0
  }

  /** `o || d`: a missing value AND a zero both fall back to `d`. */
  function OrDefault(o: Option<real>, d: real): (r: real)
    ensures Truthy(o) ==> r == o.value
    ensures !Truthy(o) ==> r == d
    ensures r == d || r == Num(o)
  {
    if Truthy(o) then o.value else d
  }

  /** `o || 0` is the plain numeric reading of the column. */
  lemma OrZeroIsNum(o: Option<real>)
    ensures OrDefault(o, 0.0) == Num(o)
  {
  }

  // ---------------------------------------------------------------------
  // Vehicle records
  // ---------------------------------------------------------------------

  /** The five propulsion types the engine knows; any other string read from
      the `fuel_type` column is kept as `Unrecognised`. A value read by
      `ParseFuelType` is `WellFormed`: one of the five names never reaches
      the `Unrecognised` case. */
  datatype FuelType = Petrol | Diesel | Cng | Electric | Hybrid | Unrecognised(name: string)
  {
    predicate Known() { !Unrecognised? }

    predicate WellFormed() { Unrecognised? ==> name !in KnownFuelNames }

    /** PETROL, DIESEL or CNG: the rate does not depend on the grid. */
    predicate Combustion() { Petrol? || Diesel? || Cng? }

    /** The position of a known type's name in `KnownFuelNames`. */
    function Index(): (i: nat)
      requires Known()
      ensures i < |KnownFuelNames|
    {
      match this
      case Petrol => 0
      case Diesel => 1
      case Cng => 2
      case Electric => 3
      case Hybrid => 4
    }
  }

  /** The `fuel_type` strings the engine's switches have a case for. */
  const KnownFuelNames: seq<string> := ["PETROL", "DIESEL", "CNG", "ELECTRIC", "HYBRID"]

  /** The `fuel_type` column as the switches read it: each of the five names
      selects its case (compared with `===`), anything else falls through to
      the default. */
  function ParseFuelType(column: string): (f: FuelType)
    ensures f.WellFormed()
    ensures f.Unrecognised? <==> column !in KnownFuelNames
    ensures f.Unrecognised? ==> f.name == column
    ensures f.Known() ==> KnownFuelNames[f.Index()] == column
  {
    if column == "PETROL" then Petrol
    else if column == "DIESEL" then Diesel
    else if column == "CNG" then Cng
    else if column == "ELECTRIC" then Electric
    else if column == "HYBRID" then Hybrid
    else Unrecognised(column)
  }

  const KnownPatternNames: seq<string> := ["CITY", "HIGHWAY", "MIXED"]

  /** The `usage_pattern` string: CITY, HIGHWAY, MIXED, or anything else.
      A value read by `ParseUsagePattern` is `WellFormed`: one of the three
      names never reaches the `OtherPattern` case. */
  datatype UsagePattern = City | Highway | Mixed | OtherPattern(name: string)
  {
    predicate WellFormed() { OtherPattern? ==> name !in KnownPatternNames }
  }

  /** Reading the `usage_pattern` string of a request. */
  function ParseUsagePattern(column: string): (p: UsagePattern)
    ensures p.WellFormed()
    ensures p.OtherPattern? <==> column !in KnownPatternNames
    ensures p.OtherPattern? ==> p.name == column
    ensures p == City <==> column == "CITY"
    ensures p == Highway <==> column == "HIGHWAY"
    ensures p == Mixed <==> column == "MIXED"
  {
    if column == "CITY" then City
    else if column == "HIGHWAY" then Highway
    else if column == "MIXED" then Mixed
    else OtherPattern(column)
  }

  /** A row of the `vehicles` table, restricted to the columns the engine and
      the routes read. Nullable numeric columns are `Option<real>`. */
  datatype Vehicle = Vehicle(
    id: string,
    make: string,
    fuel: FuelType,
    kerbWeightKg: Option<real>,
    batteryCapacityKwh: Option<real>,
    midcEfficiency: Option<real>,
    wltpEfficiency: Option<real>,
    manufacturingEmissionsKg: Option<real>,
    disposalEmissionsKg: Option<real>,
    hasRecyclingProgram: bool,
    dataSource: Option<string>,
    priceLakh: Option<real>)

  /** The MIDC efficiency the formulas divide by. */
  function Efficiency(v: Vehicle): real
  {
    Num(v.midcEfficiency)
  }

  /** `needle` occurs in `haystack` starting at position `i`. */
  predicate At(haystack: string, needle: string, i: int)
  {
    0 <= i && i + |needle| <= |haystack| && haystack[i..i + |needle|] == needle
  }

  /** `haystack.includes(needle)` on a string: some position of `haystack`
      starts an occurrence of `needle`. */
  predicate Includes(haystack: string, needle: string)
    ensures Includes(haystack, needle) ==> |needle| <= |haystack|
    ensures Includes(haystack, needle) <==> exists i :: At(haystack, needle, i)
    decreases |haystack|
  {
    AtShift(haystack, needle);
    needle <= haystack || (|haystack| > 0 && Includes(haystack[1..], needle))
  }

  /** An occurrence at 0 is a prefix, and an occurrence further on is one in
      the string without its first character. */
  lemma AtShift(haystack: string, needle: string)
    ensures needle <= haystack <==> At(haystack, needle, 0)
    ensures |haystack| > 0 ==> forall i :: 0 < i ==> (At(haystack, needle, i) <==> At(haystack[1..], needle, i - 1))
    ensures |haystack| > 0 ==> forall j :: At(haystack[1..], needle, j) ==> At(haystack, needle, j + 1)
  {
    if |haystack| > 0 {
      forall i | 0 < i
        ensures At(haystack, needle, i) <==> At(haystack[1..], needle, i - 1)
      {
        if i + |needle| <= |haystack| {
          SliceOfTail(haystack, i - 1, i - 1 + |needle|);
        }
      }
      forall j | At(haystack[1..], needle, j)
        ensures At(haystack, needle, j + 1)
      {
        SliceOfTail(haystack, j, j + |needle|);
      }
    }
  }

  lemma SliceOfTail(s: string, lo: int, hi: int)
    requires 0 < |s| && 0 <= lo <= hi <= |s| - 1
    ensures s[1..][lo..hi] == s[lo + 1..hi + 1]
  {
    assert forall k :: 0 <= k < hi - lo ==> s[1..][lo..hi][k] == s[lo + 1..hi + 1][k];
  }
}
