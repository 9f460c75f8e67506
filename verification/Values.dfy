/** Measured values: a detected quantity, or a statement that it lies below a limit. */
module Values {
  import opened Wrappers
  import opened Decimals
  import opened Units

  datatype MeasuredValue = MeasuredValue(unit: Unit, value: Option<real>, limit: Option<real>, censored: bool)
  {
    /** Exactly one of the two shapes. */
    predicate Valid() {
      if censored then value.None? && limit.Some? else value.Some?
    }
  }

  function Detected(value: real, unit: Unit, limit: Option<real>): (m: MeasuredValue)
    ensures m.Valid()
  {
    MeasuredValue(unit, Some(value), limit, false)
  }

  function NonDetect(limit: real, unit: Unit): (m: MeasuredValue)
    ensures m.Valid()
  {
    MeasuredValue(unit, None, Some(limit), true)
  }

  /** The same result in another unit; the limit converts with the value. */
  function ConvertedTo(m: MeasuredValue, unit: Unit): Result<MeasuredValue, UnitError>
    requires m.Valid()
  {
    if unit == m.unit then Ok(m)
    else if m.censored then
      var limit :- Convert(m.limit.value, m.unit, unit);
      Ok(NonDetect(limit, unit))
    else if m.limit.Some? then
      var limit :- Convert(m.limit.value, m.unit, unit);
      var value :- Convert(m.value.value, m.unit, unit);
      Ok(Detected(value, unit, Some(limit)))
    else
      var value :- Convert(m.value.value, m.unit, unit);
      Ok(Detected(value, unit, None))
  }

  /** A detected value is never below the limit it carries. */
  predicate RespectsLimit(m: MeasuredValue) {
    m.value.Some? && m.limit.Some? ==> m.limit.value <= m.value.value
  }

  /** Converting never turns a non-detect into a number, nor slips a value under its limit. */
  lemma ConversionKeepsMeaning(m: MeasuredValue, unit: Unit)
    requires m.Valid() && RespectsLimit(m)
    ensures ConvertedTo(m, unit).Ok? <==> DimensionOf(unit) == DimensionOf(m.unit)
    ensures ConvertedTo(m, unit).Ok? ==>
      var c := ConvertedTo(m, unit).value;
      && c.Valid() && RespectsLimit(c) && c.unit == unit && c.censored == m.censored
      && (c.limit.Some? <==> m.limit.Some?) && (c.value.Some? <==> m.value.Some?)
      && (c.limit.Some? ==> Convert(m.limit.value, m.unit, unit) == Ok(c.limit.value))
      && (c.value.Some? ==> Convert(m.value.value, m.unit, unit) == Ok(c.value.value))
  {
    if m.value.Some? && m.limit.Some? && DimensionOf(unit) == DimensionOf(m.unit) {
      ConvertMonotone(m.limit.value, m.value.value, m.unit, unit);
    }
  }
}
