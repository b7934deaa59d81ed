/** The arithmetic of the `ScaleBar` control: the conversion between units
    and points, zooming around a point, the coercion of its properties, and
    the rounding of the tick interval to a 1-2-5 "nice" value. Drawing is
    not part of this model. */
module ScaleBars {
  import opened Doubles

  // ----------------------------------------------------------------------
  // Powers of ten and decades

  /** 10 to the power `k`, for any integer `k`. */
  function Pow10(k: int): (r: real)
    ensures r > 0.0
    decreases if k >= 0 then k else -k
  {
    if k == 0 then 1.0 else if k > 0 then 10.0 * Pow10(k - 1) else Pow10(k + 1) / 10.0
  }

  lemma Pow10Step(k: int)
    ensures Pow10(k + 1) == 10.0 * Pow10(k)
  {
    if k < 0 {
      assert Pow10(k) == Pow10(k + 1) / 10.0;
    }
  }

  lemma {:induction false} Pow10Monotone(j: int, k: int)
    requires j <= k
    ensures Pow10(j) <= Pow10(k)
    decreases k - j
  {
    if j < k {
      Pow10Monotone(j, k - 1);
      Pow10Step(k - 1);
    }
  }

  /** A tenth of a number of at least 10 has a smaller integer part. */
  lemma FloorShrinks(x: real)
    requires x >= 10.0
    ensures (x / 10.0).Floor < x.Floor
  {
    assert (x / 10.0).Floor as real <= x / 10.0;
    assert x.Floor as real > x - 1.0;
  }

  /** Ten times a number below 1 is either at least 1 or has a smaller
      integer part of its reciprocal. */
  lemma TenfoldShrinks(v: real)
    requires 0.0 < v < 1.0
    ensures v * 10.0 < 1.0 ==> (1.0 / (v * 10.0)).Floor < (1.0 / v).Floor
  {
    if v * 10.0 < 1.0 {
      assert 1.0 / (v * 10.0) == (1.0 / v) / 10.0;
      assert 1.0 / v > 10.0;
      FloorShrinks(1.0 / v);
    }
  }

  /** `Math.Floor(Math.Log10(v))`: the decade of `v`. */
  function DecadeOf(v: real): (k: int)
    requires v > 0.0
    ensures Pow10(k) <= v < Pow10(k + 1)
    decreases (if v < 1.0 then 1 else 0), (if v >= 1.0 then v.Floor else (1.0 / v).Floor)
  {
    if v >= 10.0 then
      FloorShrinks(v);
      var k := DecadeOf(v / 10.0);
      Pow10Step(k);
      Pow10Step(k + 1);
      k + 1
    else if v >= 1.0 then
      assert Pow10(1) == 10.0 * Pow10(0);
      0
    else
      TenfoldShrinks(v);
      var k := DecadeOf(v * 10.0);
      Pow10Step(k - 1);
      k - 1
  }

  /** The decade is the only `k` with 10^k <= v < 10^(k+1). */
  lemma DecadeUnique(v: real, k: int)
    requires v > 0.0 && Pow10(k) <= v < Pow10(k + 1)
    ensures DecadeOf(v) == k
  {
    var d := DecadeOf(v);
    if d < k {
      Pow10Monotone(d + 1, k);
    } else if d > k {
      Pow10Monotone(k + 1, d);
    }
  }

  // ----------------------------------------------------------------------
  // The nice tick interval

  /** The interval rounded to the decade's choice of value, for a
      positive `v` in the decade of `l0`. */
  function NiceStep(v: real, l0: real): real
    requires l0 > 0.0
  {
    var m := v / l0;
    if m < 1.5 then l0
    else if m < 3.5 then l0 * 2.0
    else if m < 7.5 then l0 * 5.0
    else l0 * 10.0
  }

  /** `AdjustUnitInterval`: the magnitude is rounded to 1, 2, 5 or 10
      times its decade, by the thresholds 1.5, 3.5 and 7.5, and the sign
      is put back. For 0, `Math.Log10` gives -infinity, the decade 0 and
      the ratio NaN, so the result is 10·0 negated, a zero. */
  function AdjustUnitInterval(value: real): (r: real)
    ensures value > 0.0 ==> r > 0.0
    ensures value < 0.0 ==> r < 0.0
    ensures value == 0.0 ==> r == 0.0
  {
    if value == 0.0 then 0.0
    else
      var v := Abs(value);
      var result := NiceStep(v, Pow10(DecadeOf(v)));
      if value <= 0.0 then -result else result
  }

  /** A negative interval is rounded like its magnitude, then negated. */
  lemma AdjustOdd(value: real)
    ensures AdjustUnitInterval(-value) == -AdjustUnitInterval(value)
  {
  }

  /** With any `k` such that 10^k <= v < 10^(k+1), the result is 10^k,
      2·10^k, 5·10^k or 10^(k+1) as v/10^k is below 1.5, 3.5, 7.5 or not. */
  lemma AdjustInDecade(v: real, k: int)
    requires v > 0.0 && Pow10(k) <= v < Pow10(k + 1)
    ensures var m := v / Pow10(k);
            AdjustUnitInterval(v) ==
              if m < 1.5 then Pow10(k)
              else if m < 3.5 then 2.0 * Pow10(k)
              else if m < 7.5 then 5.0 * Pow10(k)
              else Pow10(k + 1)
  {
    DecadeUnique(v, k);
    Pow10Step(k);
  }

  /** The result is a 1-2-5 value: 1, 2 or 5 times a power of ten. */
  lemma AdjustIsNice(v: real)
    requires v > 0.0
    ensures exists j :: AdjustUnitInterval(v) in {Pow10(j), 2.0 * Pow10(j), 5.0 * Pow10(j)}
  {
    var k := DecadeOf(v);
    AdjustInDecade(v, k);
    if v / Pow10(k) >= 7.5 {
      assert AdjustUnitInterval(v) in {Pow10(k + 1), 2.0 * Pow10(k + 1), 5.0 * Pow10(k + 1)};
    } else {
      assert AdjustUnitInterval(v) in {Pow10(k), 2.0 * Pow10(k), 5.0 * Pow10(k)};
    }
  }

  /** Comparing the ratio to the decade is comparing with a multiple of
      the decade. */
  lemma RatioBelow(v: real, l0: real, c: real)
    requires l0 > 0.0
    ensures v / l0 < c <==> v < c * l0
  {
    var m := v / l0;
    assert m * l0 == v;
    if m < c {
      assert (c - m) * l0 > 0.0;
    } else {
      assert (m - c) * l0 >= 0.0;
    }
  }

  /** `NiceStep` with the ratio comparisons written as products. */
  lemma NiceStepByProducts(v: real, l0: real)
    requires l0 > 0.0
    ensures NiceStep(v, l0) ==
              if v < 1.5 * l0 then l0
              else if v < 3.5 * l0 then l0 * 2.0
              else if v < 7.5 * l0 then l0 * 5.0
              else l0 * 10.0
  {
    RatioBelow(v, l0, 1.5);
    RatioBelow(v, l0, 3.5);
    RatioBelow(v, l0, 7.5);
  }

  /** For a positive interval the sign handling drops out. */
  lemma AdjustPositive(v: real)
    requires v > 0.0
    ensures AdjustUnitInterval(v) == NiceStep(v, Pow10(DecadeOf(v)))
  {
  }

  /** The rounding of a `v` in the decade of `l0` stays within a factor
      of two of it. */
  lemma NiceStepClose(v: real, l0: real)
    requires l0 > 0.0 && l0 <= v < 10.0 * l0
    ensures 0.7 * NiceStep(v, l0) <= v < 1.75 * NiceStep(v, l0)
  {
    NiceStepByProducts(v, l0);
  }

  /** The result is within a factor of two of the input:
      0.7·r <= v < 1.75·r. */
  lemma AdjustIsClose(v: real)
    requires v > 0.0
    ensures var r := AdjustUnitInterval(v); 0.7 * r <= v < 1.75 * r
  {
    var k := DecadeOf(v);
    Pow10Step(k);
    AdjustPositive(v);
    NiceStepClose(v, Pow10(k));
  }

  /** 1, 2 and 5 times `l0` are rounded to themselves in its decade. */
  lemma NiceStepFixed(v: real, l0: real)
    requires l0 > 0.0 && (v == l0 || v == 2.0 * l0 || v == 5.0 * l0)
    ensures NiceStep(v, l0) == v
  {
    NiceStepByProducts(v, l0);
  }

  /** Rounding a positive `v` in the decade of 10^k is `NiceStep` on 10^k. */
  lemma AdjustAt(v: real, k: int)
    requires v > 0.0 && Pow10(k) <= v < Pow10(k + 1)
    ensures AdjustUnitInterval(v) == NiceStep(v, Pow10(k))
  {
    DecadeUnique(v, k);
  }

  /** 1, 2 and 5 times a power of ten are rounded to themselves. */
  lemma AdjustOfNice(v: real, k: int)
    requires v == Pow10(k) || v == 2.0 * Pow10(k) || v == 5.0 * Pow10(k)
    ensures AdjustUnitInterval(v) == v
  {
    Pow10Step(k);
    AdjustAt(v, k);
    NiceStepFixed(v, Pow10(k));
  }

  /** A nice value is rounded to itself. */
  lemma AdjustIdempotent(v: real)
    requires v > 0.0
    ensures AdjustUnitInterval(AdjustUnitInterval(v)) == AdjustUnitInterval(v)
  {
    var k := DecadeOf(v);
    AdjustPositive(v);
    var r := NiceStep(v, Pow10(k));
    if r == Pow10(k) * 10.0 {
      Pow10Step(k);
      AdjustOfNice(r, k + 1);
    } else {
      AdjustOfNice(r, k);
    }
  }

  // ----------------------------------------------------------------------
  // Coercion of the properties

  const MinUnitsPerTick: real := 0.000000000001
  const MinPointsPerTick: real := 10.0

  /** `UnitsPerTick` is kept at 1e-12 or more; a value already there is
      kept as it is. */
  function CoerceUnitsPerTick(value: real): (r: real)
    ensures r >= MinUnitsPerTick
    ensures value >= MinUnitsPerTick ==> r == value
    ensures value < MinUnitsPerTick ==> r == MinUnitsPerTick
  {
    if value < MinUnitsPerTick then MinUnitsPerTick else value
  }

  /** `PointsPerTick` is kept at 10 or more; a value already there is
      kept as it is. */
  function CoercePointsPerTick(value: real): (r: real)
    ensures r >= MinPointsPerTick
    ensures value >= MinPointsPerTick ==> r == value
    ensures value < MinPointsPerTick ==> r == MinPointsPerTick
  {
    if value < MinPointsPerTick then MinPointsPerTick else value
  }

  /** `DecimalCountRounding` is coerced to 12 whatever is asked for. */
  function CoerceDecimalCountRounding(value: int): (r: int)
    ensures r == 12
  {
    if 0 < 12 then 12 else 0
  }

  // ----------------------------------------------------------------------
  // Ratios

  /** The adjusted points per tick keep the ratio of points to units. */
  lemma AdjustedRatio(pointsPerTick: real, unitsPerTick: real, adjustedUnitsPerTick: real)
    requires pointsPerTick > 0.0 && unitsPerTick > 0.0 && adjustedUnitsPerTick > 0.0
    ensures var a := pointsPerTick * adjustedUnitsPerTick / unitsPerTick;
            a > 0.0 && a / adjustedUnitsPerTick == pointsPerTick / unitsPerTick
  {
    var a := pointsPerTick * adjustedUnitsPerTick / unitsPerTick;
    assert a * unitsPerTick == pointsPerTick * adjustedUnitsPerTick;
  }

  /** Two fractions that are equal scale any `p` alike. */
  lemma SameRatio(p: real, a: real, b: real, c: real, d: real)
    requires a > 0.0 && b > 0.0 && c > 0.0 && d > 0.0 && b / a == d / c
    ensures p * a / b == p * c / d
  {
    assert b * c == d * a by {
      assert (b / a) * a == b;
      assert (d / c) * c == d;
      assert b * c == (b / a) * a * c;
      assert d * a == (d / c) * c * a;
    }
    var x := p * a / b;
    assert x * b == p * a;
    assert x * d == p * c by {
      assert x * b * d == p * a * d;
      assert p * a * d == p * b * c;
    }
  }

  /** From a unit to a point and back. */
  lemma UnitPointUnit(start: real, units: real, points: real, unit: real)
    requires units > 0.0 && points > 0.0
    ensures start + (((unit - start) * points) / units * units) / points == unit
  {
    var p := ((unit - start) * points) / units;
    assert p * units == (unit - start) * points;
  }

  /** From a point to a unit and back. */
  lemma PointUnitPoint(start: real, units: real, points: real, point: real)
    requires units > 0.0 && points > 0.0
    ensures (((start + (point * units) / points) - start) * points) / units == point
  {
    var d := (point * units) / points;
    assert d * points == point * units;
  }

  // ----------------------------------------------------------------------
  // The control

  /** The scale state of a `ScaleBar` once it is loaded: the first unit
      shown, the requested ticks, the nice ticks actually drawn and the
      points-per-unit of both. */
  class ScaleBar {
    var startUnit: real
    var unitsPerTick: real
    var pointsPerTick: real
    var adjustedUnitsPerTick: real
    var adjustedPointsPerTick: real
    var pointsPerUnit: real
    var adjustedPointsPerUnit: real
    var decimalCountRounding: int

    /** The coerced ranges hold and the drawn unit interval is positive. */
    predicate Ranges()
      reads this
    {
      unitsPerTick >= MinUnitsPerTick && pointsPerTick >= MinPointsPerTick &&
      adjustedUnitsPerTick > 0.0
    }

    /** The drawn ticks have the same points-per-unit as the requested
        ones, and both points-per-unit properties agree. */
    predicate Valid()
      reads this
    {
      Ranges() &&
      adjustedPointsPerTick > 0.0 &&
      adjustedPointsPerTick / adjustedUnitsPerTick == pointsPerTick / unitsPerTick &&
      adjustedPointsPerUnit == pointsPerUnit
    }

    /** The drawn unit interval is the nice rounding of the requested one. */
    predicate Rounded()
      reads this
    {
      adjustedUnitsPerTick == AdjustUnitInterval(unitsPerTick)
    }

    /** The control right after `OnLoaded`: the default ticks (1 unit,
        100 points) are copied to the adjusted ones; the points-per-unit
        properties still hold their default 0. */
    constructor()
      ensures Valid() && Rounded()
      ensures startUnit == 0.0 && unitsPerTick == 1.0 && pointsPerTick == 100.0
      ensures adjustedUnitsPerTick == 1.0 && adjustedPointsPerTick == 100.0
      ensures pointsPerUnit == 0.0 && adjustedPointsPerUnit == 0.0
      ensures decimalCountRounding == 6
    {
      startUnit := 0.0;
      unitsPerTick := 1.0;
      pointsPerTick := 100.0;
      adjustedUnitsPerTick := 1.0;
      adjustedPointsPerTick := 100.0;
      pointsPerUnit := 0.0;
      adjustedPointsPerUnit := 0.0;
      decimalCountRounding := 6;
      new;
      AdjustOfNice(Pow10(0), 0);
    }

    /** The point at which `unit` is drawn. */
    function GetPointAt(unit: real): (r: real)
      reads this
      requires Valid()
      ensures GetUnitAt(r) == unit
    {
      UnitPointUnit(startUnit, adjustedUnitsPerTick, adjustedPointsPerTick, unit);
      ((unit - startUnit) * adjustedPointsPerTick) / adjustedUnitsPerTick
    }

    /** The unit drawn at `point`; the nice rounding of the tick does not
        change it: it is the requested units per point. */
    function GetUnitAt(point: real): (r: real)
      reads this
      requires Valid()
      ensures r == startUnit + point * unitsPerTick / pointsPerTick
    {
      SameRatio(point, adjustedUnitsPerTick, adjustedPointsPerTick, unitsPerTick, pointsPerTick);
      startUnit + (point * adjustedUnitsPerTick) / adjustedPointsPerTick
    }

    /** A point maps to a unit and back to itself. */
    lemma PointRoundTrip(point: real)
      requires Valid()
      ensures GetPointAt(GetUnitAt(point)) == point
    {
      PointUnitPoint(startUnit, adjustedUnitsPerTick, adjustedPointsPerTick, point);
    }

    /** Scrolls so that `unit` is drawn at `point`. */
    method SetUnitAt(unit: real, point: real)
      requires Valid()
      modifies this`startUnit
      ensures startUnit == unit - (point * adjustedUnitsPerTick) / adjustedPointsPerTick
      ensures Valid() && GetUnitAt(point) == unit
    {
      startUnit := unit - (point * adjustedUnitsPerTick) / adjustedPointsPerTick;
    }

    /** `OnUnitsPerTickPropertyChanged`: the new requested interval is
        rounded, the drawn points per tick follow so that the scale is
        kept, and both points-per-unit are recomputed. */
    method OnUnitsPerTickChanged()
      requires unitsPerTick >= MinUnitsPerTick && pointsPerTick >= MinPointsPerTick
      modifies this`adjustedUnitsPerTick, this`adjustedPointsPerTick,
               this`adjustedPointsPerUnit, this`pointsPerUnit
      ensures adjustedUnitsPerTick == AdjustUnitInterval(unitsPerTick)
      ensures adjustedPointsPerTick == pointsPerTick * adjustedUnitsPerTick / unitsPerTick
      ensures adjustedPointsPerUnit == adjustedPointsPerTick / adjustedUnitsPerTick
      ensures pointsPerUnit == pointsPerTick / unitsPerTick
      ensures Valid() && Rounded() && adjustedPointsPerUnit == pointsPerTick / unitsPerTick
    {
      adjustedUnitsPerTick := AdjustUnitInterval(unitsPerTick);
      OnPointsPerTickChanged();
    }

    /** `OnPointsPerTickPropertyChanged`: as the units-per-tick callback,
        without rounding the interval again. */
    method OnPointsPerTickChanged()
      requires Ranges()
      modifies this`adjustedPointsPerTick, this`adjustedPointsPerUnit, this`pointsPerUnit
      ensures adjustedPointsPerTick == pointsPerTick * adjustedUnitsPerTick / unitsPerTick
      ensures adjustedPointsPerUnit == adjustedPointsPerTick / adjustedUnitsPerTick
      ensures pointsPerUnit == pointsPerTick / unitsPerTick
      ensures Valid() && adjustedPointsPerUnit == pointsPerTick / unitsPerTick
    {
      AdjustedRatio(pointsPerTick, unitsPerTick, adjustedUnitsPerTick);
      adjustedPointsPerTick := pointsPerTick * adjustedUnitsPerTick / unitsPerTick;
      adjustedPointsPerUnit := adjustedPointsPerTick / adjustedUnitsPerTick;
      pointsPerUnit := pointsPerTick / unitsPerTick;
    }

    /** Setting `UnitsPerTick`: the value is coerced, and the callback runs
        only when the coerced value differs from the current one. */
    method SetUnitsPerTick(value: real)
      requires Valid()
      modifies this`unitsPerTick, this`adjustedUnitsPerTick, this`adjustedPointsPerTick,
               this`adjustedPointsPerUnit, this`pointsPerUnit
      ensures Valid()
      ensures unitsPerTick == CoerceUnitsPerTick(value)
      ensures old(unitsPerTick) != unitsPerTick || old(Rounded()) ==> Rounded()
      ensures old(unitsPerTick) == unitsPerTick ==>
                adjustedPointsPerTick == old(adjustedPointsPerTick) &&
                pointsPerUnit == old(pointsPerUnit)
      ensures old(unitsPerTick) != unitsPerTick ==>
                pointsPerUnit == pointsPerTick / unitsPerTick
    {
      var coerced := CoerceUnitsPerTick(value);
      if coerced != unitsPerTick {
        unitsPerTick := coerced;
        OnUnitsPerTickChanged();
      }
    }

    /** Setting `PointsPerTick`: the value is coerced, and the callback
        runs only when the coerced value differs from the current one. */
    method SetPointsPerTick(value: real)
      requires Valid()
      modifies this`pointsPerTick, this`adjustedPointsPerTick,
               this`adjustedPointsPerUnit, this`pointsPerUnit
      ensures Valid()
      ensures pointsPerTick == CoercePointsPerTick(value)
      ensures old(Rounded()) ==> Rounded()
      ensures old(pointsPerTick) == pointsPerTick ==>
                adjustedPointsPerTick == old(adjustedPointsPerTick) &&
                pointsPerUnit == old(pointsPerUnit)
      ensures old(pointsPerTick) != pointsPerTick ==>
                pointsPerUnit == pointsPerTick / unitsPerTick
    {
      var coerced := CoercePointsPerTick(value);
      if coerced != pointsPerTick {
        pointsPerTick := coerced;
        OnPointsPerTickChanged();
      }
    }

    /** Setting `DecimalCountRounding` stores its coerced value. */
    method SetDecimalCountRounding(value: int)
      modifies this`decimalCountRounding
      ensures decimalCountRounding == CoerceDecimalCountRounding(value)
    {
      decimalCountRounding := CoerceDecimalCountRounding(value);
    }

    /** Zooms the units around `point`: the unit under it stays put. */
    method SetUnitsPerTickAt(value: real, point: real)
      requires Valid()
      modifies this
      ensures Valid()
      ensures unitsPerTick == CoerceUnitsPerTick(value) && pointsPerTick == old(pointsPerTick)
      ensures GetUnitAt(point) == old(GetUnitAt(point))
    {
      var unit := GetUnitAt(point);
      SetUnitsPerTick(value);
      SetUnitAt(unit, point);
    }

    /** Zooms the points around `point`: the unit under it stays put. */
    method SetPointsPerTickAt(value: real, point: real)
      requires Valid()
      modifies this
      ensures Valid()
      ensures pointsPerTick == CoercePointsPerTick(value) && unitsPerTick == old(unitsPerTick)
      ensures GetUnitAt(point) == old(GetUnitAt(point))
    {
      var unit := GetUnitAt(point);
      SetPointsPerTick(value);
      SetUnitAt(unit, point);
    }
  }
}
