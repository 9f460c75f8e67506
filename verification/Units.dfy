/** Units of measure, conversion at 34 digits, and how far rounding can carry a value. */
module Units {
  import opened Wrappers
  import opened Decimals

  datatype Dimension = MassFraction | MassConcentration | Mass

  datatype Unit =
    | Ppm | Ppb | Percent | GPerTonne | OzPerTon
    | MgPerL | UgPerL
    | Gram | Milligram | Microgram | Kilogram

  datatype UnitError = Incompatible(source: Unit, target: Unit)

  function DimensionOf(u: Unit): Dimension {
    match u
    case Ppm | Ppb | Percent | GPerTonne | OzPerTon => MassFraction
    case MgPerL | UgPerL => MassConcentration
    case Gram | Milligram | Microgram | Kilogram => Mass
  }

  /** The factor to the dimension's canonical unit, as an exact rational. */
  function Numerator(u: Unit): (n: real)
    ensures n > 0.0
  {
    match u
    case Percent => 10000.0
    case OzPerTon => 240.0
    case Kilogram => 1000.0
    case _ => 1.0
  }

  function Denominator(u: Unit): (d: real)
    ensures d > 0.0
  {
    match u
    case Ppb | UgPerL | Milligram => 1000.0
    case OzPerTon => 7.0
    case Microgram => 1000000.0
    case _ => 1.0
  }

  function Times(a: real, b: real): real {
    a * b
  }

  function Over(a: real, b: real): real
    requires b != 0.0
  {
    a / b
  }

  /** Multiply, round, divide, round. */
  function Scale(v: real, times: real, over: real): real
    requires over > 0.0
  {
    Round(Over(Round(Times(v, times)), over))
  }

  function Convert(v: real, source: Unit, target: Unit): Result<real, UnitError> {
    if source == target then Ok(v)
    else if DimensionOf(source) != DimensionOf(target) then Err(Incompatible(source, target))
    else
      var canonical := Scale(v, Numerator(source), Denominator(source));
      Ok(Scale(canonical, Denominator(target), Numerator(target)))
  }

  function ExactScale(v: real, times: real, over: real): real
    requires over > 0.0
  {
    Over(Times(v, times), over)
  }

  /** The conversion without rounding. */
  function ExactConvert(v: real, source: Unit, target: Unit): real {
    ExactScale(ExactScale(v, Numerator(source), Denominator(source)), Denominator(target), Numerator(target))
  }

  // ----- Products and quotients by a positive number ------------------------------------

  lemma TimesLe(a: real, b: real, c: real)
    requires a <= b && c > 0.0
    ensures Times(a, c) <= Times(b, c)
  {
  }

  lemma OverLe(a: real, b: real, c: real)
    requires a <= b && c > 0.0
    ensures Over(a, c) <= Over(b, c)
  {
  }

  lemma OverTimes(x: real, c: real)
    requires c > 0.0
    ensures Times(Over(x, c), c) == x && Over(Times(x, c), c) == x
  {
  }

  lemma SignOfTimes(x: real, c: real)
    requires c > 0.0
    ensures x > 0.0 <==> Times(x, c) > 0.0
    ensures x == 0.0 <==> Times(x, c) == 0.0
    ensures Times(-x, c) == -Times(x, c)
  {
  }

  lemma SignOfOver(x: real, c: real)
    requires c > 0.0
    ensures x > 0.0 <==> Over(x, c) > 0.0
    ensures x == 0.0 <==> Over(x, c) == 0.0
    ensures Over(-x, c) == -Over(x, c)
  {
  }

  // ----- Order and sign through Scale -----------------------------------------------------

  lemma ScaleMonotone(v: real, w: real, times: real, over: real)
    requires v <= w && times > 0.0 && over > 0.0
    ensures Scale(v, times, over) <= Scale(w, times, over)
  {
    TimesLe(v, w, times);
    RoundMonotone(Times(v, times), Times(w, times));
    OverLe(Round(Times(v, times)), Round(Times(w, times)), over);
    RoundMonotone(Over(Round(Times(v, times)), over), Over(Round(Times(w, times)), over));
  }

  lemma ScaleSign(v: real, times: real, over: real)
    requires times > 0.0 && over > 0.0
    ensures v > 0.0 <==> Scale(v, times, over) > 0.0
    ensures v == 0.0 <==> Scale(v, times, over) == 0.0
    ensures Scale(-v, times, over) == -Scale(v, times, over)
  {
    SignOfTimes(v, times);
    RoundSign(Times(v, times));
    SignOfOver(Round(Times(v, times)), over);
    RoundSign(Over(Round(Times(v, times)), over));
  }

  /** Conversion never reverses an order. */
  lemma ConvertMonotone(v: real, w: real, source: Unit, target: Unit)
    requires v <= w && DimensionOf(source) == DimensionOf(target)
    ensures Convert(v, source, target).value <= Convert(w, source, target).value
  {
    ScaleMonotone(v, w, Numerator(source), Denominator(source));
    ScaleMonotone(Scale(v, Numerator(source), Denominator(source)), Scale(w, Numerator(source), Denominator(source)),
      Denominator(target), Numerator(target));
  }

  /** Conversion keeps the sign, and is odd. */
  lemma ConvertSign(v: real, source: Unit, target: Unit)
    requires DimensionOf(source) == DimensionOf(target)
    ensures v > 0.0 <==> Convert(v, source, target).value > 0.0
    ensures v == 0.0 <==> Convert(v, source, target).value == 0.0
    ensures Convert(-v, source, target).value == -Convert(v, source, target).value
  {
    var c := Scale(v, Numerator(source), Denominator(source));
    ScaleSign(v, Numerator(source), Denominator(source));
    ScaleSign(c, Denominator(target), Numerator(target));
  }

  // ----- Accumulated error ------------------------------------------------------------------

  /** (1 - 5e-34)^k * x */
  function Low(x: real, k: nat): real {
    if k == 0 then x else Low(x, k - 1) - Slack(Low(x, k - 1))
  }

  /** (1 + 5e-34)^k * x */
  function High(x: real, k: nat): real {
    if k == 0 then x else High(x, k - 1) + Slack(High(x, k - 1))
  }

  /** y is x after at most k roundings. */
  predicate Near(x: real, y: real, k: nat) {
    Low(x, k) <= y <= High(x, k)
  }

  lemma {:induction false} BandContains(x: real, k: nat)
    requires x >= 0.0
    ensures 0.0 <= Low(x, k) <= x <= High(x, k)
  {
    if k > 0 {
      BandContains(x, k - 1);
    }
  }

  lemma NearRound(x: real, y: real, k: nat)
    requires x >= 0.0 && Near(x, y, k)
    ensures Near(x, Round(y), k + 1)
  {
    BandContains(x, k);
    RoundError(y);
  }

  lemma SlackTimes(a: real, c: real)
    ensures Times(a - Slack(a), c) == Times(a, c) - Slack(Times(a, c))
    ensures Times(a + Slack(a), c) == Times(a, c) + Slack(Times(a, c))
  {
  }

  lemma {:induction false} BandTimes(x: real, c: real, k: nat)
    ensures Low(Times(x, c), k) == Times(Low(x, k), c)
    ensures High(Times(x, c), k) == Times(High(x, k), c)
  {
    if k > 0 {
      BandTimes(x, c, k - 1);
      SlackTimes(Low(x, k - 1), c);
      SlackTimes(High(x, k - 1), c);
    }
  }

  lemma NearTimes(x: real, y: real, c: real, k: nat)
    requires c > 0.0 && Near(x, y, k)
    ensures Near(Times(x, c), Times(y, c), k)
  {
    BandTimes(x, c, k);
    TimesLe(Low(x, k), y, c);
    TimesLe(y, High(x, k), c);
  }

  lemma NearOver(x: real, y: real, c: real, k: nat)
    requires c > 0.0 && Near(x, y, k)
    ensures Near(Over(x, c), Over(y, c), k)
  {
    var q := Over(x, c);
    OverTimes(x, c);
    BandTimes(q, c, k);
    OverTimes(Low(q, k), c);
    OverTimes(High(q, k), c);
    OverLe(Low(x, k), y, c);
    OverLe(y, High(x, k), c);
  }

  lemma NearWeaken(x: real, y: real, j: nat, k: nat)
    requires x >= 0.0 && Near(x, y, j) && j <= k
    ensures Near(x, y, k)
    decreases k - j
  {
    if j < k {
      BandContains(x, j);
      NearWeaken(x, y, j + 1, k);
    }
  }

  lemma NearAdd(x: real, y: real, v: real, w: real, k: nat)
    requires Near(x, y, k) && Near(v, w, k)
    ensures Near(x + v, y + w, k)
  {
    BandAdd(x, v, k);
  }

  lemma {:induction false} BandAdd(x: real, v: real, k: nat)
    ensures Low(x + v, k) == Low(x, k) + Low(v, k) && High(x + v, k) == High(x, k) + High(v, k)
  {
    if k > 0 {
      BandAdd(x, v, k - 1);
    }
  }

  lemma NearScale(x: real, y: real, times: real, over: real, k: nat)
    requires x >= 0.0 && times > 0.0 && over > 0.0 && Near(x, y, k)
    ensures ExactScale(x, times, over) >= 0.0
    ensures Near(ExactScale(x, times, over), Scale(y, times, over), k + 2)
  {
    var a, b := Times(x, times), Times(y, times);
    SignOfTimes(x, times);
    NearTimes(x, y, times, k);
    NearRound(a, b, k);
    SignOfOver(a, over);
    NearOver(a, Round(b), over, k + 1);
    NearRound(Over(a, over), Over(Round(b), over), k + 1);
  }

  lemma NearTwoScales(v: real, a: real, b: real, c: real, d: real)
    requires v >= 0.0 && a > 0.0 && b > 0.0 && c > 0.0 && d > 0.0
    ensures ExactScale(ExactScale(v, a, b), c, d) >= 0.0
    ensures Near(ExactScale(ExactScale(v, a, b), c, d), Scale(Scale(v, a, b), c, d), 4)
  {
    NearScale(v, v, a, b, 0);
    NearScale(ExactScale(v, a, b), Scale(v, a, b), c, d, 2);
  }

  /** Four roundings: a conversion is the exact one to within (1 +- 5e-34)^4. */
  lemma ConvertNearExact(v: real, source: Unit, target: Unit)
    requires v >= 0.0 && source != target && DimensionOf(source) == DimensionOf(target)
    ensures Near(ExactConvert(v, source, target), Convert(v, source, target).value, 4)
  {
    NearTwoScales(v, Numerator(source), Denominator(source), Denominator(target), Numerator(target));
  }

  /** A conversion of something near a number is near the conversion of the number. */
  lemma NearConvert(x: real, y: real, source: Unit, target: Unit, k: nat)
    requires x >= 0.0 && Near(x, y, k) && DimensionOf(source) == DimensionOf(target)
    ensures ExactConvert(x, source, target) >= 0.0
    ensures Near(ExactConvert(x, source, target), Convert(y, source, target).value, k + 4)
  {
    var a, b, c, d := Numerator(source), Denominator(source), Denominator(target), Numerator(target);
    NearScale(x, y, a, b, k);
    NearScale(ExactScale(x, a, b), Scale(y, a, b), c, d, k + 2);
    if source == target {
      ExactScaleInverse(x, a, b);
      NearWeaken(x, y, k, k + 4);
    }
  }

  // ----- The units themselves -------------------------------------------------------------------

  /** Two units convert exactly when both are mass fractions, both mass concentrations or both masses. */
  lemma ConvertsIff(v: real, s: Unit, t: Unit)
    ensures Convert(v, s, t).Ok? <==>
      || (s in {Ppm, Ppb, Percent, GPerTonne, OzPerTon} && t in {Ppm, Ppb, Percent, GPerTonne, OzPerTon})
      || (s in {MgPerL, UgPerL} && t in {MgPerL, UgPerL})
      || (s in {Gram, Milligram, Microgram, Kilogram} && t in {Gram, Milligram, Microgram, Kilogram})
  {
  }

  lemma FromUnit(v: real, s: Unit)
    ensures ExactScale(v, Numerator(s), Denominator(s)) ==
      match s
      case Percent => 10000.0 * v
      case OzPerTon => 240.0 * v / 7.0
      case Kilogram => 1000.0 * v
      case Microgram => v / 1000000.0
      case Ppb | UgPerL | Milligram => v / 1000.0
      case _ => v
  {
  }

  lemma ToUnit(v: real, t: Unit)
    ensures ExactScale(v, Denominator(t), Numerator(t)) ==
      match t
      case Percent => v / 10000.0
      case OzPerTon => 7.0 * v / 240.0
      case Kilogram => v / 1000.0
      case Microgram => 1000000.0 * v
      case Ppb | UgPerL | Milligram => 1000.0 * v
      case _ => v
  {
  }

  /**
   How many of one unit make another: per cent, parts per million and per billion, the metric
   prefixes, and a troy ounce of 480 grains in a short ton of 2000 pounds of 7000 grains.
   */
  lemma UnitSizes(v: real)
    ensures ExactConvert(v, Percent, Ppm) == 10000.0 * v
    ensures ExactConvert(v, Ppm, Ppb) == 1000.0 * v
    ensures ExactConvert(v, GPerTonne, Ppm) == v
    ensures ExactConvert(v, OzPerTon, Ppm) * (2000.0 * 7000.0) == v * 480.0 * 1000000.0
    ensures ExactConvert(v, MgPerL, UgPerL) == 1000.0 * v
    ensures ExactConvert(v, Kilogram, Gram) == 1000.0 * v
    ensures ExactConvert(v, Gram, Milligram) == 1000.0 * v
    ensures ExactConvert(v, Gram, Microgram) == 1000000.0 * v
  {
    FromUnit(v, Percent);
    ToUnit(10000.0 * v, Ppm);
    FromUnit(v, Ppm);
    ToUnit(v, Ppb);
    FromUnit(v, GPerTonne);
    ToUnit(v, Ppm);
    FromUnit(v, OzPerTon);
    ToUnit(240.0 * v / 7.0, Ppm);
    FromUnit(v, MgPerL);
    ToUnit(v, UgPerL);
    FromUnit(v, Kilogram);
    ToUnit(1000.0 * v, Gram);
    FromUnit(v, Gram);
    ToUnit(v, Milligram);
    ToUnit(v, Microgram);
  }

  // ----- There and back -------------------------------------------------------------------------

  /** Scaling by a/b and then by b/a is the identity. */
  lemma ExactScaleInverse(v: real, a: real, b: real)
    requires a > 0.0 && b > 0.0
    ensures ExactScale(ExactScale(v, a, b), b, a) == v
  {
  }

  /** In exact rationals, converting back is a true inverse. */
  lemma ExactInverse(v: real, s: Unit, t: Unit)
    ensures ExactConvert(ExactConvert(v, s, t), t, s) == v
  {
  }

  /** In exact rationals, going through any third unit changes nothing. */
  lemma ExactCompose(v: real, s: Unit, t: Unit, w: Unit)
    ensures ExactConvert(ExactConvert(v, s, t), t, w) == ExactConvert(v, s, w)
  {
    ExactScaleInverse(ExactScale(v, Numerator(s), Denominator(s)), Denominator(t), Numerator(t));
  }

  lemma NearFourScales(v: real, a: real, b: real, c: real, d: real)
    requires v >= 0.0 && a > 0.0 && b > 0.0 && c > 0.0 && d > 0.0
    ensures Near(v, Scale(Scale(Scale(Scale(v, a, b), d, c), c, d), b, a), 8)
  {
    NearTwoScales(v, a, b, d, c);
    var e := ExactScale(v, a, b);
    var x, y := ExactScale(e, d, c), Scale(Scale(v, a, b), d, c);
    NearScale(x, y, c, d, 4);
    ExactScaleInverse(e, d, c);
    NearScale(e, Scale(y, c, d), b, a, 6);
    ExactScaleInverse(v, a, b);
  }

  /** At 34 digits, there and back returns to within (1 +- 5e-34)^8 of the start. */
  lemma RoundTripNear(v: real, s: Unit, t: Unit)
    requires v >= 0.0 && DimensionOf(s) == DimensionOf(t)
    ensures var there := Convert(v, s, t).value; Near(v, Convert(there, t, s).value, 8)
  {
    BandContains(v, 8);
    NearFourScales(v, Numerator(s), Denominator(s), Numerator(t), Denominator(t));
  }

  /** For negative values the same holds of the absolute values, since conversion is odd. */
  lemma RoundTripNegative(v: real, s: Unit, t: Unit)
    requires v < 0.0 && DimensionOf(s) == DimensionOf(t)
    ensures var there := Convert(v, s, t).value; Near(-v, -Convert(there, t, s).value, 8)
  {
    var there := Convert(v, s, t).value;
    RoundTripNear(-v, s, t);
    ConvertSign(v, s, t);
    assert Convert(-v, s, t).value == -there;
    ConvertSign(there, t, s);
    assert Convert(-there, t, s).value == -Convert(there, t, s).value;
  }

  // ----- Conversions that are exact ---------------------------------------------------------------

  lemma ScaleByOne(v: real)
    ensures Scale(v, 1.0, 1.0) == Round(v)
    ensures Scale(v, 1.0, 1000.0) == Round(v) / 1000.0
  {
    RoundIdentityIff(v);
    RoundTimesThousand(Round(v));
  }

  /** ug/L to mg/L only rounds the reading: the division by 1000 is exact. */
  lemma MicroToMilli(v: real)
    ensures Convert(v, UgPerL, MgPerL) == Ok(Round(v) / 1000.0)
  {
    ScaleByOne(v);
    ScaleByOne(Round(v) / 1000.0);
    RoundTimesThousand(Round(v));
    RoundIdentityIff(v);
  }

  /** ppm and g/t are the same quantity: an already rounded value converts to itself. */
  lemma PpmToGPerTonne(v: real)
    requires Fits(v)
    ensures Convert(v, Ppm, GPerTonne) == Ok(v)
  {
    RoundIdentityIff(v);
    ScaleByOne(v);
  }
}
