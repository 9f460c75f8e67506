/**
 Silver by difference as it is stored: the grade is computed from the difference of the two
 weighings in the pinned context, while the silver bead stored beside it is that difference
 rounded in the default one.
 */
module Silver {
  import opened Wrappers
  import opened Decimals
  import opened Units
  import opened Values
  import opened Assay

  /** The stored silver_bead_mg column. */
  function SilverBead(dore: real, gold: real): real {
    RoundIn(Default, dore - gold)
  }

  /** The silver grade computed again from the stored beads and portion. */
  function SilverAgain(gold: real, bead: real, weight: real): Result<MeasuredValue, AssayError> {
    SilverByDifference(gold + bead, gold, weight)
  }

  /** The last rounding of the grade gives two weights of silver the same grade. */
  predicate Merges(s: real, t: real, weight: real)
    requires weight > 0.0
  {
    Round(Over(1000.0 * s, weight)) == Round(Over(1000.0 * t, weight))
  }

  /** The grade of a weight of at most 34 digits is rounded once: the thousandfold is exact. */
  lemma GradeOfFitting(s: real, weight: real)
    requires weight > 0.0 && Fits(s)
    ensures Scale(s, 1000.0, weight) == Round(Over(1000.0 * s, weight))
  {
    RoundIdentityIff(s);
    RoundTimesThousand(s);
    assert Times(s, 1000.0) == 1000.0 * s;
  }

  lemma StoredAndAgain(dore: real, gold: real, weight: real)
    requires SilverByDifference(dore, gold, weight).Ok?
    ensures var s, t := Round(dore - gold), SilverBead(dore, gold);
      && t >= 0.0 && s >= 0.0
      && SilverByDifference(dore, gold, weight) == Ok(Detected(Round(Over(1000.0 * s, weight)), GPerTonne, None))
      && SilverAgain(gold, t, weight) == Ok(Detected(Round(Over(1000.0 * t, weight)), GPerTonne, None))
  {
    var d, t := dore - gold, SilverBead(dore, gold);
    RoundFits(Default, d);
    RoundSign(d);
    RoundIdentityIff(d);
    GradeOfFitting(Round(d), weight);
    FitsWidens(t);
    RoundIdentityIff(t);
    GradeOfFitting(t, weight);
    assert gold + t - gold == t;
  }

  /**
   The stored silver grade is the one computed again from the stored bead exactly when the
   difference, at 34 digits, has at most 28 of them, or the final division happens to round
   the two weights to one grade. In the first case the two weights are equal, so it is a case
   of the second as well, and what the equivalence removes is every rounding but the last.
   The conditions a caller can check on the weighings alone are ShortDifferenceRepeats, which
   is enough for any portion, and DistantBeadNeverRepeats, which rules it out for any.
   */
  lemma SilverRepeatsIff(dore: real, gold: real, weight: real)
    requires SilverByDifference(dore, gold, weight).Ok?
    ensures var s, t := Round(dore - gold), SilverBead(dore, gold);
      && (s == t <==> FitsIn(Default, s))
      && (SilverAgain(gold, t, weight) == SilverByDifference(dore, gold, weight)
          <==> FitsIn(Default, s) || Merges(s, t, weight))
  {
    StoredAndAgain(dore, gold, weight);
    ContextsAgreeIff(dore - gold);
  }

  /** A difference of at most 28 digits always repeats, over any portion. */
  lemma ShortDifferenceRepeats(dore: real, gold: real, weight: real)
    requires SilverByDifference(dore, gold, weight).Ok? && FitsIn(Default, dore - gold)
    ensures SilverBead(dore, gold) == dore - gold
    ensures SilverAgain(gold, SilverBead(dore, gold), weight) == SilverByDifference(dore, gold, weight)
  {
    RoundIsIdentityIff(Default, dore - gold);
    FitsWidens(dore - gold);
    RoundIdentityIff(dore - gold);
    SilverRepeatsIff(dore, gold, weight);
  }

  // ----- How far apart two weights must be not to merge -----------------------------------------

  lemma OverApart(a: real, b: real, weight: real)
    requires weight > 0.0 && b - a > Slack(a) + Slack(b)
    ensures Over(b, weight) - Over(a, weight) > Slack(Over(a, weight)) + Slack(Over(b, weight))
  {
    var p, q := Over(a, weight), Over(b, weight);
    OverTimes(a, weight);
    OverTimes(b, weight);
    SlackTimes(p, weight);
    SlackTimes(q, weight);
    if q - Slack(q) <= p + Slack(p) {
      TimesLe(q - Slack(q), p + Slack(p), weight);
    }
  }

  lemma ApartDoNotMerge(s: real, t: real, weight: real)
    requires weight > 0.0 && 0.0 <= s && t - s > Slack(s) + Slack(t)
    ensures !Merges(s, t, weight)
  {
    OverApart(1000.0 * s, 1000.0 * t, weight);
    SignOfOver(1000.0 * s, weight);
    SignOfOver(1000.0 * t, weight);
    RoundError(Over(1000.0 * s, weight));
    RoundError(Over(1000.0 * t, weight));
  }

  /** So a bead further from the difference than two roundings never gives the stored grade back. */
  lemma DistantBeadNeverRepeats(dore: real, gold: real, weight: real)
    requires SilverByDifference(dore, gold, weight).Ok?
    requires var s, t := Round(dore - gold), SilverBead(dore, gold);
      (if s <= t then t - s else s - t) > Slack(s) + Slack(t)
    ensures SilverAgain(gold, SilverBead(dore, gold), weight) != SilverByDifference(dore, gold, weight)
  {
    StoredAndAgain(dore, gold, weight);
    var s, t := Round(dore - gold), SilverBead(dore, gold);
    if s <= t {
      ApartDoNotMerge(s, t, weight);
    } else {
      ApartDoNotMerge(t, s, weight);
    }
  }

  lemma RoundsToShortGrid(x: real, n: int)
    requires 1.0 <= x < 10.0 && -0.5 < x * K28 - n as real < 0.5
    ensures RoundIn(Default, x) == n as real / K28
  {
    HalfEvenNear(x * K28, n);
  }

  /** A difference of 1 + 10^-30 mg over 1 g: a bead of 1 mg is stored, and its grade is another. */
  lemma SilverDrifts()
    ensures var dore, gold := 2.0 + 1000.0 / K, 1.0;
      && SilverByDifference(dore, gold, 1.0).Ok? && SilverBead(dore, gold) == 1.0
      && SilverAgain(gold, SilverBead(dore, gold), 1.0) != SilverByDifference(dore, gold, 1.0)
  {
    var d := 1.0 + 1000.0 / K;
    assert 2.0 + 1000.0 / K - 1.0 == d;
    RoundsToGrid(d, 1000000000000000000000000000001000);
    RoundsToShortGrid(d, 1000000000000000000000000000);
    assert Round(d) == d && RoundIn(Default, d) == 1.0;
    DistantBeadNeverRepeats(2.0 + 1000.0 / K, 1.0, 1.0);
  }

  /** The exception is real: 9 + 10^-33 mg over 8 g stores a bead of 9 mg, and both grade alike. */
  lemma SilverCanMerge()
    ensures var dore, gold := 9.0 + 1.0 / K, 0.0;
      && SilverByDifference(dore, gold, 8.0).Ok? && SilverBead(dore, gold) == 9.0 != Round(dore - gold)
      && SilverAgain(gold, SilverBead(dore, gold), 8.0) == SilverByDifference(dore, gold, 8.0)
  {
    NineAndALastDigit();
    EighthsAgree();
    SilverRepeatsIff(9.0 + 1.0 / K, 0.0, 8.0);
  }

  lemma NineAndALastDigit()
    ensures var d := 9.0 + 1.0 / K; Round(d - 0.0) == d && SilverBead(d, 0.0) == 9.0
  {
    var d := 9.0 + 1.0 / K;
    assert d - 0.0 == d;
    RoundsToGrid(d, 9000000000000000000000000000000001);
    RoundsToShortGrid(d, 9000000000000000000000000000);
  }

  lemma EighthsAgree()
    ensures Merges(9.0 + 1.0 / K, 9.0, 8.0)
  {
    var p, q := 1.125 + 0.125 / K, 1.125;
    RoundsToGrid(p, 1125000000000000000000000000000000);
    RoundsToGrid(q, 1125000000000000000000000000000000);
    RoundTimesThousand(p);
    RoundTimesThousand(q);
    assert Over(1000.0 * (9.0 + 1.0 / K), 8.0) == 1000.0 * p;
    assert Over(1000.0 * 9.0, 8.0) == 1000.0 * q;
  }

  // ----- How far the two grades can be apart -------------------------------------------------------

  /** Stored or computed again, the grade is within one part in 10^27 of the exact one. */
  lemma SilverNearlyRepeats(dore: real, gold: real, weight: real)
    requires SilverByDifference(dore, gold, weight).Ok?
    ensures var exact := Over(1000.0 * (dore - gold), weight);
      var again := SilverAgain(gold, SilverBead(dore, gold), weight);
      var stored := SilverByDifference(dore, gold, weight).value.value.value;
      && again.Ok?
      && exact - SlackIn(Default, 2.0 * exact) <= again.value.value.value <= exact + SlackIn(Default, 2.0 * exact)
      && exact - SlackIn(Default, 2.0 * exact) <= stored <= exact + SlackIn(Default, 2.0 * exact)
  {
    var d, t := dore - gold, SilverBead(dore, gold);
    StoredAndAgain(dore, gold, weight);
    RoundErrorIn(Default, d);
    RoundErrorIn(Pinned, d);
    GradeNear(d, t, weight);
    GradeNear(d, Round(d), weight);
  }

  lemma GradeNear(d: real, t: real, weight: real)
    requires weight > 0.0 && d >= 0.0 && d - SlackIn(Default, d) <= t <= d + SlackIn(Default, d)
    ensures var exact := Over(1000.0 * d, weight);
      exact - SlackIn(Default, 2.0 * exact) <= Round(Over(1000.0 * t, weight)) <= exact + SlackIn(Default, 2.0 * exact)
  {
    var exact, q := Over(1000.0 * d, weight), Over(1000.0 * t, weight);
    OverBand(1000.0 * d, 1000.0 * t, weight);
    SignOfOver(1000.0 * d, weight);
    SignOfOver(1000.0 * t, weight);
    RoundError(q);
  }

  lemma OverBand(a: real, b: real, weight: real)
    requires weight > 0.0 && a - SlackIn(Default, a) <= b <= a + SlackIn(Default, a)
    ensures Over(a, weight) - SlackIn(Default, Over(a, weight)) <= Over(b, weight)
         <= Over(a, weight) + SlackIn(Default, Over(a, weight))
  {
    OverLe(a - SlackIn(Default, a), b, weight);
    OverLe(b, a + SlackIn(Default, a), weight);
    OverScales(a, 1.0 - 1.0 / 2000000000000000000000000000.0, weight);
    OverScales(a, 1.0 + 1.0 / 2000000000000000000000000000.0, weight);
  }

  lemma OverScales(a: real, c: real, weight: real)
    requires weight > 0.0
    ensures Over(a * c, weight) == Over(a, weight) * c
  {
  }
}
