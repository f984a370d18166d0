/** The grid route's classification of a state's grid intensity (kg CO2 per
    kWh) into a map colour and a category name. Both classifiers walk the
    same four upper bounds, each inclusive, so they always agree on the
    band. */
module Grid {
  /** The inclusive upper bounds of the four cleaner bands; anything above
      the last one is in the fifth band. */
  const Bounds: seq<real> := [0.3, 0.5, 0.7, 0.85]

  /** Band colours, cleanest first. */
  const Palette: seq<string> := ["#10b981", "#34d399", "#fbbf24", "#f97316", "#ef4444"]

  /** Band names, cleanest first. */
  const Categories: seq<string> := ["Very Clean", "Clean", "Moderate", "Carbon Heavy", "Very Carbon Heavy"]

  /** `getGridColor`. */
  function GridColor(intensity: real): (c: string)
    ensures c in Palette
    ensures c == Palette[0] <==> intensity <= Bounds[0]
    ensures c == Palette[4] <==> Bounds[3] < intensity
  {
    if intensity <= 0.3 then "#10b981"
    else if intensity <= 0.5 then "#34d399"
    else if intensity <= 0.7 then "#fbbf24"
    else if intensity <= 0.85 then "#f97316"
    else "#ef4444"
  }

  /** `getGridCategory`. */
  function GridCategory(intensity: real): (c: string)
    ensures c in Categories
    ensures c == Categories[0] <==> intensity <= Bounds[0]
    ensures c == Categories[4] <==> Bounds[3] < intensity
  {
    if intensity <= 0.3 then "Very Clean"
    else if intensity <= 0.5 then "Clean"
    else if intensity <= 0.7 then "Moderate"
    else if intensity <= 0.85 then "Carbon Heavy"
    else "Very Carbon Heavy"
  }

  /** How many of the bounds `x` exceeds. */
  function Exceeded(bounds: seq<real>, x: real): (n: nat)
    ensures n <= |bounds|
  {
    if bounds == [] then 0 else (if bounds[0] < x then 1 else 0) + Exceeded(bounds[1..], x)
  }

  /** The band of an intensity, 0 (cleanest) to 4, defined independently of
      the two classifiers. */
  function Band(intensity: real): (b: nat)
    ensures b < |Palette| && b < |Categories|
  {
    Exceeded(Bounds, intensity)
  }

  function Above(bound: real, x: real): nat
  {
    if bound < x then 1 else 0
  }

  /** The band counts the bounds exceeded, one by one. */
  lemma BandCountsBounds(x: real)
    ensures Band(x) == Above(0.3, x) + Above(0.5, x) + Above(0.7, x) + Above(0.85, x)
  {
    var b1, b2, b3 := Bounds[1..], Bounds[1..][1..], Bounds[1..][1..][1..];
    assert b1 == [0.5, 0.7, 0.85] && b2 == [0.7, 0.85] && b3 == [0.85] && b3[1..] == [];
    assert Exceeded(Bounds, x) == Above(0.3, x) + Exceeded(b1, x);
    assert Exceeded(b1, x) == Above(0.5, x) + Exceeded(b2, x);
    assert Exceeded(b2, x) == Above(0.7, x) + Exceeded(b3, x);
    assert Exceeded(b3, x) == Above(0.85, x);
  }

  /** The colour is the palette entry of the band. */
  lemma ColorOfBand(intensity: real)
    ensures GridColor(intensity) == Palette[Band(intensity)]
  {
    BandCountsBounds(intensity);
  }

  /** The category is the name of the band. */
  lemma CategoryOfBand(intensity: real)
    ensures GridCategory(intensity) == Categories[Band(intensity)]
  {
    BandCountsBounds(intensity);
  }

  lemma {:induction false} ExceededMonotone(bounds: seq<real>, x: real, y: real)
    requires x <= y
    ensures Exceeded(bounds, x) <= Exceeded(bounds, y)
    decreases |bounds|
  {
    if bounds != [] {
      ExceededMonotone(bounds[1..], x, y);
    }
  }

  /** A dirtier grid never gets a cleaner band. */
  lemma BandMonotone(x: real, y: real)
    requires x <= y
    ensures Band(x) <= Band(y)
  {
    ExceededMonotone(Bounds, x, y);
  }

  /** Each bound belongs to the band it closes, and anything just above it
      to the next band. */
  lemma BoundsAreInclusive(i: nat, above: real)
    requires i < |Bounds|
    requires Bounds[i] < above && (i + 1 < |Bounds| ==> above <= Bounds[i + 1])
    ensures Band(Bounds[i]) == i
    ensures Band(above) == i + 1
  {
    BandCountsBounds(Bounds[i]);
    BandCountsBounds(above);
  }

  /** The two classifiers agree: two intensities share a colour exactly when
      they share a category, exactly when they share a band. */
  lemma ColorMatchesCategory(x: real, y: real)
    ensures GridColor(x) == GridColor(y) <==> Band(x) == Band(y)
    ensures GridCategory(x) == GridCategory(y) <==> Band(x) == Band(y)
  {
    ColorOfBand(x);
    ColorOfBand(y);
    CategoryOfBand(x);
    CategoryOfBand(y);
  }
}
