/** From a weighed bead, or a solution reading, to a grade: every operation rounds to 34 digits. */
module Assay {
  import opened Wrappers
  import opened Decimals
  import opened Units
  import opened Values

  datatype AssayError =
    | NotPositive
    | NegativeReading
    | ZeroWithoutLimit
    | WrongDimension
    | AboveCalibration
    | GoldHeavierThanDore

  function GravimetricGrade(bead: real, weight: real, sensitivity: Option<real>): Result<MeasuredValue, AssayError> {
    if weight <= 0.0 then Err(NotPositive)
    else if bead < 0.0 then Err(NegativeReading)
    else if bead == 0.0 && sensitivity.None? then Err(ZeroWithoutLimit)
    else if sensitivity.Some? && sensitivity.value <= 0.0 then Err(NotPositive)
    else if sensitivity.Some? && bead <= sensitivity.value then
      Ok(NonDetect(Scale(sensitivity.value, 1000.0, weight), GPerTonne))
    else
      var limit := if sensitivity.None? then None else Some(Scale(sensitivity.value, 1000.0, weight));
      Ok(Detected(Scale(bead, 1000.0, weight), GPerTonne, limit))
  }

  /** A reading in mg/L, which is numerically ug/mL. */
  function InMgPerL(reading: real, unit: Unit): real
    requires DimensionOf(unit) == MassConcentration
  {
    Convert(reading, unit, MgPerL).value
  }

  function SolutionFinishGrade(
    concentration: real, unit: Unit, volume: real, weight: real, detection: Option<real>, upper: Option<real>)
    : Result<MeasuredValue, AssayError>
  {
    if weight <= 0.0 || volume <= 0.0 then Err(NotPositive)
    else if concentration < 0.0 then Err(NegativeReading)
    else if DimensionOf(unit) != MassConcentration then Err(WrongDimension)
    else
      var mgPerL := InMgPerL(concentration, unit);
      if upper.Some? && upper.value <= 0.0 then Err(NotPositive)
      else if upper.Some? && mgPerL > InMgPerL(upper.value, unit) then Err(AboveCalibration)
      else if detection.Some? && detection.value <= 0.0 then Err(NotPositive)
      else if detection.Some? && mgPerL <= InMgPerL(detection.value, unit) then
        Ok(NonDetect(Scale(InMgPerL(detection.value, unit), volume, weight), GPerTonne))
      else if detection.None? && concentration == 0.0 then Err(ZeroWithoutLimit)
      else
        var limit := if detection.None? then None else Some(Scale(InMgPerL(detection.value, unit), volume, weight));
        Ok(Detected(Scale(mgPerL, volume, weight), GPerTonne, limit))
  }

  function ElementGrade(
    concentration: real, unit: Unit, volume: real, weight: real, output: Unit, detection: Option<real>)
    : Result<MeasuredValue, AssayError>
  {
    if weight <= 0.0 || volume <= 0.0 then Err(NotPositive)
    else if concentration < 0.0 then Err(NegativeReading)
    else if DimensionOf(unit) != MassConcentration || DimensionOf(output) != MassFraction then Err(WrongDimension)
    else
      var mgPerL := InMgPerL(concentration, unit);
      var ppm := Scale(mgPerL, volume, weight);
      if detection.Some? && detection.value <= 0.0 then Err(NotPositive)
      else if detection.Some? && mgPerL <= InMgPerL(detection.value, unit) then
        Ok(NonDetect(Convert(Scale(InMgPerL(detection.value, unit), volume, weight), Ppm, output).value, output))
      else if detection.None? && concentration == 0.0 then Err(ZeroWithoutLimit)
      else
        var limit :=
          if detection.None? then None
          else Some(Convert(Scale(InMgPerL(detection.value, unit), volume, weight), Ppm, output).value);
        Ok(Detected(Convert(ppm, Ppm, output).value, output, limit))
  }

  function SilverByDifference(dore: real, gold: real, weight: real): Result<MeasuredValue, AssayError> {
    if weight <= 0.0 then Err(NotPositive)
    else if gold > dore then Err(GoldHeavierThanDore)
    else Ok(Detected(Scale(Round(dore - gold), 1000.0, weight), GPerTonne, None))
  }

  function BeadWeightForGrade(grade: real, weight: real): Result<real, AssayError> {
    if weight <= 0.0 then Err(NotPositive)
    else if grade < 0.0 then Err(NegativeReading)
    else Ok(Scale(grade, weight, 1000.0))
  }

  // ----- A detected grade is never below its own limit ------------------------------------

  lemma GravimetricRespectsLimit(bead: real, weight: real, sensitivity: Option<real>)
    requires GravimetricGrade(bead, weight, sensitivity).Ok?
    ensures var g := GravimetricGrade(bead, weight, sensitivity).value;
      g.Valid() && RespectsLimit(g) && (!g.censored ==> g.value.value > 0.0)
  {
    ScaleSign(bead, 1000.0, weight);
    if sensitivity.Some? && bead > sensitivity.value {
      ScaleMonotone(sensitivity.value, bead, 1000.0, weight);
    }
  }

  lemma SolutionRespectsLimit(
    concentration: real, unit: Unit, volume: real, weight: real, detection: Option<real>, upper: Option<real>)
    requires SolutionFinishGrade(concentration, unit, volume, weight, detection, upper).Ok?
    ensures var g := SolutionFinishGrade(concentration, unit, volume, weight, detection, upper).value;
      g.Valid() && RespectsLimit(g)
  {
    if detection.Some? && InMgPerL(concentration, unit) > InMgPerL(detection.value, unit) {
      ScaleMonotone(InMgPerL(detection.value, unit), InMgPerL(concentration, unit), volume, weight);
    }
  }

  lemma ElementRespectsLimit(
    concentration: real, unit: Unit, volume: real, weight: real, output: Unit, detection: Option<real>)
    requires ElementGrade(concentration, unit, volume, weight, output, detection).Ok?
    ensures var g := ElementGrade(concentration, unit, volume, weight, output, detection).value;
      g.Valid() && RespectsLimit(g) && g.unit == output
  {
    if detection.Some? && InMgPerL(concentration, unit) > InMgPerL(detection.value, unit) {
      var low, high := InMgPerL(detection.value, unit), InMgPerL(concentration, unit);
      ScaleMonotone(low, high, volume, weight);
      ConvertMonotone(Scale(low, volume, weight), Scale(high, volume, weight), Ppm, output);
    }
  }

  // ----- Detection decides on the raw readings ------------------------------------------------

  /** Readings of at most 34 digits compare in mg/L exactly as they were read. */
  lemma InMgPerLKeepsOrder(a: real, b: real, unit: Unit)
    requires DimensionOf(unit) == MassConcentration
    requires unit == UgPerL ==> Fits(a) && Fits(b)
    ensures InMgPerL(a, unit) <= InMgPerL(b, unit) <==> a <= b
  {
    if unit == UgPerL {
      MicroToMilli(a);
      MicroToMilli(b);
      RoundIdentityIff(a);
      RoundIdentityIff(b);
    }
  }

  /** The non-detect decision, and the refusal above range, are those of the raw readings. */
  lemma SolutionDecidesOnReadings(
    concentration: real, unit: Unit, volume: real, weight: real, detection: Option<real>, upper: Option<real>)
    requires weight > 0.0 && volume > 0.0 && concentration >= 0.0 && DimensionOf(unit) == MassConcentration
    requires detection.Some? ==> detection.value > 0.0
    requires upper.Some? ==> upper.value > 0.0
    requires unit == UgPerL ==> Fits(concentration)
    requires unit == UgPerL && detection.Some? ==> Fits(detection.value)
    requires unit == UgPerL && upper.Some? ==> Fits(upper.value)
    ensures var r := SolutionFinishGrade(concentration, unit, volume, weight, detection, upper);
      var above := upper.Some? && concentration > upper.value;
      (r == Err(AboveCalibration) <==> above) &&
      (r.Ok? && r.value.censored <==> !above && detection.Some? && concentration <= detection.value)
  {
    if upper.Some? {
      InMgPerLKeepsOrder(concentration, upper.value, unit);
    }
    if detection.Some? {
      InMgPerLKeepsOrder(concentration, detection.value, unit);
    }
  }

  /** Two readings beyond 34 digits that mg/L can no longer tell apart. */
  predicate ConfusedWith(concentration: real, limit: Option<real>) {
    limit.Some? && concentration > limit.value && Round(concentration) == Round(limit.value)
  }

  lemma InMgPerLOfMicro(a: real, b: real)
    ensures InMgPerL(a, UgPerL) <= InMgPerL(b, UgPerL) <==> Round(a) <= Round(b)
    ensures a <= b ==> Round(a) <= Round(b)
    ensures a > b ==> Round(a) >= Round(b)
  {
    MicroToMilli(a);
    MicroToMilli(b);
    if a <= b {
      RoundMonotone(a, b);
    } else {
      RoundMonotone(b, a);
    }
  }

  /**
   For ug/L readings of any length, each decision is the comparison of the raw readings
   exactly unless the reading exceeds that limit and rounds to the same 34 digits: then a
   reading above range is accepted, and a reading above the detection limit is called a
   non-detect.
   */
  lemma MicroDecisionsIff(concentration: real, volume: real, weight: real, detection: Option<real>, upper: Option<real>)
    requires weight > 0.0 && volume > 0.0 && concentration >= 0.0
    requires (detection.Some? ==> detection.value > 0.0) && (upper.Some? ==> upper.value > 0.0)
    ensures var r := SolutionFinishGrade(concentration, UgPerL, volume, weight, detection, upper);
      && ((r == Err(AboveCalibration) <==> upper.Some? && concentration > upper.value)
          <==> !ConfusedWith(concentration, upper))
      && (r.Ok? ==> ((r.value.censored <==> detection.Some? && concentration <= detection.value)
          <==> !ConfusedWith(concentration, detection)))
  {
    if upper.Some? {
      InMgPerLOfMicro(concentration, upper.value);
    }
    if detection.Some? {
      InMgPerLOfMicro(concentration, detection.value);
    }
  }

  /** 1 + 10^-34 and 1 are written alike at 34 digits. */
  lemma SameDigits()
    ensures ConfusedWith(1.0 + 0.1 / K, Some(1.0))
  {
    RoundsToGrid(1.0, 1000000000000000000000000000000000);
    RoundsToGrid(1.0 + 0.1 / K, 1000000000000000000000000000000000);
  }

  /** A reading confused with its detection limit is called a non-detect, and with its upper limit accepted. */
  lemma ConfusedReadings(reading: real, limit: real)
    requires limit > 0.0 && ConfusedWith(reading, Some(limit))
    ensures var low := SolutionFinishGrade(reading, UgPerL, 1.0, 1.0, Some(limit), None);
      low.Ok? && low.value.censored
    ensures SolutionFinishGrade(reading, UgPerL, 1.0, 1.0, None, Some(limit)).Ok?
  {
    InMgPerLOfMicro(reading, limit);
  }

  /** 1 + 10^-34 ug/L against a limit of 1 ug/L: called a non-detect, and not above range either. */
  lemma MicroDecisionsFail()
    ensures var reading := 1.0 + 0.1 / K;
      && reading > 1.0
      && SolutionFinishGrade(reading, UgPerL, 1.0, 1.0, Some(1.0), None).Ok?
      && SolutionFinishGrade(reading, UgPerL, 1.0, 1.0, Some(1.0), None).value.censored
      && SolutionFinishGrade(reading, UgPerL, 1.0, 1.0, None, Some(1.0)).Ok?
  {
    SameDigits();
    ConfusedReadings(1.0 + 0.1 / K, 1.0);
  }

  /** The upper limit only ever refuses; it never changes a grade. */
  lemma UpperOnlyRefuses(
    concentration: real, unit: Unit, volume: real, weight: real, detection: Option<real>, upper: Option<real>)
    requires SolutionFinishGrade(concentration, unit, volume, weight, detection, upper).Ok?
    ensures SolutionFinishGrade(concentration, unit, volume, weight, detection, None)
         == SolutionFinishGrade(concentration, unit, volume, weight, detection, upper)
  {
  }

  // ----- What a grade is ---------------------------------------------------------------------

  /** A weighed bead grades exactly when portion and sensitivity are positive and a zero bead has a sensitivity. */
  lemma GravimetricOkIff(bead: real, weight: real, sensitivity: Option<real>)
    ensures GravimetricGrade(bead, weight, sensitivity).Ok? <==>
      && weight > 0.0 && bead >= 0.0
      && (sensitivity.Some? ==> sensitivity.value > 0.0) && (bead == 0.0 ==> sensitivity.Some?)
  {
  }

  /** Silver by difference needs a portion and a dore bead no lighter than its gold; a predicted bead, a portion. */
  lemma DifferenceOkIff(dore: real, gold: real, grade: real, weight: real)
    ensures SilverByDifference(dore, gold, weight).Ok? <==> weight > 0.0 && gold <= dore
    ensures BeadWeightForGrade(grade, weight).Ok? <==> weight > 0.0 && grade >= 0.0
  {
  }

  /** The silver grade is a thousand times the difference over the portion, to within three roundings. */
  lemma SilverGradeNear(dore: real, gold: real, weight: real)
    requires SilverByDifference(dore, gold, weight).Ok?
    ensures var g := SilverByDifference(dore, gold, weight).value;
      && g.unit == GPerTonne && !g.censored && g.limit.None? && g.value.Some?
      && Near((dore - gold) * 1000.0 / weight, g.value.value, 3)
  {
    NearRound(dore - gold, dore - gold, 0);
    NearScale(dore - gold, Round(dore - gold), 1000.0, weight, 1);
  }

  /** The gravimetric grade is a thousand times bead over portion, and so is its limit, to within two roundings. */
  lemma GravimetricGradeNear(bead: real, weight: real, sensitivity: Option<real>)
    requires GravimetricGrade(bead, weight, sensitivity).Ok?
    ensures var g := GravimetricGrade(bead, weight, sensitivity).value;
      && g.unit == GPerTonne
      && (g.censored <==> sensitivity.Some? && bead <= sensitivity.value)
      && (!g.censored ==> g.value.Some? && Near(bead * 1000.0 / weight, g.value.value, 2))
      && (g.limit.Some? <==> sensitivity.Some?)
      && (g.limit.Some? ==> Near(sensitivity.value * 1000.0 / weight, g.limit.value, 2))
  {
    NearScale(bead, bead, 1000.0, weight, 0);
    if sensitivity.Some? {
      NearScale(sensitivity.value, sensitivity.value, 1000.0, weight, 0);
    }
  }

  lemma SolutionScaleNear(reading: real, unit: Unit, volume: real, weight: real)
    requires reading >= 0.0 && volume > 0.0 && weight > 0.0 && DimensionOf(unit) == MassConcentration
    ensures ExactScale(ExactConvert(reading, unit, MgPerL), volume, weight) >= 0.0
    ensures Near(ExactScale(ExactConvert(reading, unit, MgPerL), volume, weight),
                 Scale(InMgPerL(reading, unit), volume, weight), 6)
  {
    NearConvert(reading, reading, unit, MgPerL, 0);
    NearScale(ExactConvert(reading, unit, MgPerL), InMgPerL(reading, unit), volume, weight, 4);
  }

  /** A solution grade is mg/L times mL over g, and so is its limit, to within six roundings. */
  lemma SolutionGradeNear(
    concentration: real, unit: Unit, volume: real, weight: real, detection: Option<real>, upper: Option<real>)
    requires SolutionFinishGrade(concentration, unit, volume, weight, detection, upper).Ok?
    ensures var g := SolutionFinishGrade(concentration, unit, volume, weight, detection, upper).value;
      && g.unit == GPerTonne
      && (!g.censored ==> g.value.Some?)
      && (!g.censored ==> Near(ExactScale(ExactConvert(concentration, unit, MgPerL), volume, weight), g.value.value, 6))
      && (g.limit.Some? <==> detection.Some?)
      && (g.limit.Some? ==>
            Near(ExactScale(ExactConvert(detection.value, unit, MgPerL), volume, weight), g.limit.value, 6))
  {
    SolutionScaleNear(concentration, unit, volume, weight);
    if detection.Some? {
      SolutionScaleNear(detection.value, unit, volume, weight);
    }
  }

  lemma ElementScaleNear(reading: real, unit: Unit, volume: real, weight: real, output: Unit)
    requires reading >= 0.0 && volume > 0.0 && weight > 0.0
    requires DimensionOf(unit) == MassConcentration && DimensionOf(output) == MassFraction
    ensures Near(ExactConvert(ExactScale(ExactConvert(reading, unit, MgPerL), volume, weight), Ppm, output),
                 Convert(Scale(InMgPerL(reading, unit), volume, weight), Ppm, output).value, 10)
  {
    SolutionScaleNear(reading, unit, volume, weight);
    NearConvert(ExactScale(ExactConvert(reading, unit, MgPerL), volume, weight),
                Scale(InMgPerL(reading, unit), volume, weight), Ppm, output, 6);
  }

  /** An element grade is the same in parts per million, converted to the unit asked for: ten roundings. */
  lemma ElementGradeNear(
    concentration: real, unit: Unit, volume: real, weight: real, output: Unit, detection: Option<real>)
    requires ElementGrade(concentration, unit, volume, weight, output, detection).Ok?
    ensures var g := ElementGrade(concentration, unit, volume, weight, output, detection).value;
      && g.unit == output
      && (!g.censored ==> g.value.Some?)
      && (!g.censored ==>
            Near(ExactConvert(ExactScale(ExactConvert(concentration, unit, MgPerL), volume, weight), Ppm, output),
                 g.value.value, 10))
      && (g.limit.Some? <==> detection.Some?)
      && (g.limit.Some? ==>
            Near(ExactConvert(ExactScale(ExactConvert(detection.value, unit, MgPerL), volume, weight), Ppm, output),
                 g.limit.value, 10))
  {
    ElementScaleNear(concentration, unit, volume, weight, output);
    if detection.Some? {
      ElementScaleNear(detection.value, unit, volume, weight, output);
    }
  }

  predicate PositiveIfAny(x: Option<real>) {
    x.Some? ==> x.value > 0.0
  }

  /** A solution reading grades exactly when every input is in range and it is not above its upper limit. */
  lemma SolutionOkIff(
    concentration: real, unit: Unit, volume: real, weight: real, detection: Option<real>, upper: Option<real>)
    ensures SolutionFinishGrade(concentration, unit, volume, weight, detection, upper).Ok? <==>
      && weight > 0.0 && volume > 0.0 && concentration >= 0.0 && unit in {MgPerL, UgPerL}
      && PositiveIfAny(detection) && PositiveIfAny(upper) && (concentration == 0.0 ==> detection.Some?)
      && (upper.Some? ==> Convert(concentration, unit, MgPerL).value <= Convert(upper.value, unit, MgPerL).value)
  {
    if weight > 0.0 && volume > 0.0 && detection.Some? && detection.value > 0.0 && concentration == 0.0
       && unit in {MgPerL, UgPerL} {
      ConvertMonotone(concentration, detection.value, unit, MgPerL);
    }
  }

  /** An element reading grades exactly when every input is in its range. */
  lemma ElementOkIff(
    concentration: real, unit: Unit, volume: real, weight: real, output: Unit, detection: Option<real>)
    ensures ElementGrade(concentration, unit, volume, weight, output, detection).Ok? <==>
      && weight > 0.0 && volume > 0.0 && concentration >= 0.0 && unit in {MgPerL, UgPerL}
      && output in {Ppm, Ppb, Percent, GPerTonne, OzPerTon}
      && PositiveIfAny(detection) && (concentration == 0.0 ==> detection.Some?)
  {
  }

  // ----- Two routes to the same grade -------------------------------------------------------

  lemma ScaleFits(v: real, times: real, over: real)
    requires over > 0.0
    ensures Fits(Scale(v, times, over))
  {
    RoundIdentityIff(Over(Round(Times(v, times)), over));
  }

  /** In g/t, the element route is the solution finish with no upper limit, refusals included. */
  lemma ElementAgreesWithSolution(concentration: real, unit: Unit, volume: real, weight: real, detection: Option<real>)
    ensures ElementGrade(concentration, unit, volume, weight, GPerTonne, detection)
         == SolutionFinishGrade(concentration, unit, volume, weight, detection, None)
  {
    if weight > 0.0 && volume > 0.0 && DimensionOf(unit) == MassConcentration {
      ScaleFits(InMgPerL(concentration, unit), volume, weight);
      PpmToGPerTonne(Scale(InMgPerL(concentration, unit), volume, weight));
      if detection.Some? {
        ScaleFits(InMgPerL(detection.value, unit), volume, weight);
        PpmToGPerTonne(Scale(InMgPerL(detection.value, unit), volume, weight));
      }
    }
  }

  lemma ExactScaleAdds(a: real, b: real, times: real, over: real)
    requires over > 0.0
    ensures ExactScale(a, times, over) + ExactScale(b, times, over) == ExactScale(a + b, times, over)
  {
  }

  lemma NearOfParts(gold: real, silver: real, weight: real)
    requires gold >= 0.0 && silver >= 0.0 && weight > 0.0
    ensures Near(ExactScale(gold + silver, 1000.0, weight),
                 Scale(gold, 1000.0, weight) + Scale(Round(silver), 1000.0, weight), 3)
  {
    var au, ag := Scale(gold, 1000.0, weight), Scale(Round(silver), 1000.0, weight);
    var x, y := ExactScale(gold, 1000.0, weight), ExactScale(silver, 1000.0, weight);
    NearScale(gold, gold, 1000.0, weight, 0);
    NearWeaken(x, au, 2, 3);
    NearRound(silver, silver, 0);
    NearScale(silver, Round(silver), 1000.0, weight, 1);
    NearAdd(x, au, y, ag, 3);
    ExactScaleAdds(gold, silver, 1000.0, weight);
  }

  /** Gold plus silver by difference is the dore grade, to within three roundings. */
  lemma GoldPlusSilverIsDore(dore: real, gold: real, weight: real, sensitivity: Option<real>)
    requires GravimetricGrade(gold, weight, sensitivity).Ok? && SilverByDifference(dore, gold, weight).Ok?
    requires !GravimetricGrade(gold, weight, sensitivity).value.censored
    ensures var au := GravimetricGrade(gold, weight, sensitivity).value.value.value;
      var ag := SilverByDifference(dore, gold, weight).value.value.value;
      Near(ExactScale(dore, 1000.0, weight), au + ag, 3)
  {
    NearOfParts(gold, dore - gold, weight);
    assert gold + (dore - gold) == dore;
  }

  /** The bead a grade predicts is the bead it was computed from, to within four roundings. */
  lemma BeadWeightInvertsGrade(bead: real, weight: real, sensitivity: Option<real>)
    requires GravimetricGrade(bead, weight, sensitivity).Ok?
    requires !GravimetricGrade(bead, weight, sensitivity).value.censored
    ensures var g := GravimetricGrade(bead, weight, sensitivity).value.value.value;
      BeadWeightForGrade(g, weight).Ok? && Near(bead, BeadWeightForGrade(g, weight).value, 4)
  {
    ScaleSign(bead, 1000.0, weight);
    NearScale(bead, bead, 1000.0, weight, 0);
    NearScale(ExactScale(bead, 1000.0, weight), Scale(bead, 1000.0, weight), weight, 1000.0, 2);
    ExactScaleInverse(bead, 1000.0, weight);
  }
}
