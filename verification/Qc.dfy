/** Advisory QC arithmetic: duplicate pairs, certified materials and blanks. */
module Qc {
  import opened Wrappers
  import opened Decimals
  import opened Units
  import opened Values

  datatype PairStats = PairStats(mean: real, absDiff: real, rpdPercent: real)

  datatype Advisory =
    | NotYetWeighed | GradeRequiresSensitivity
    | OriginalNotInBatch | OriginalNotGraded | DuplicateNotGraded | PairMeanZero | DuplicateRpdAboveMax
    | CrmUncertaintyInvalid | CrmNonDetect | CrmMissingCertifiedValue
    | BlankAboveThreshold

  /** A configured limit that is not positive is refused outright. */
  datatype QcError = LimitNotPositive

  function Abs(x: real): real {
    if x >= 0.0 then x else -x
  }

  function Mean(o: real, d: real): real {
    Round(Round(o + d) / 2.0)
  }

  function AbsDiff(o: real, d: real): real {
    Round(Abs(Round(d - o)))
  }

  function Rpd(o: real, d: real): real
    requires Mean(o, d) != 0.0
  {
    Round(Round(Over(AbsDiff(o, d), Mean(o, d))) * 100.0)
  }

  function GradeIfDetected(m: Option<MeasuredValue>): Option<real>
    requires m.Some? ==> m.value.Valid()
  {
    if m.None? || m.value.censored then None else m.value.value
  }

  /** Statistics of one original/duplicate pair, or why there are none. */
  function DuplicatePair(original: Option<MeasuredValue>, duplicate: Option<MeasuredValue>, maxRpd: real)
    : Result<(Option<PairStats>, Option<Advisory>), QcError>
    requires original.Some? ==> original.value.Valid()
    requires duplicate.Some? ==> duplicate.value.Valid()
  {
    if maxRpd <= 0.0 then Err(LimitNotPositive)
    else
      match (GradeIfDetected(original), GradeIfDetected(duplicate))
      case (None, _) => Ok((None, Some(OriginalNotGraded)))
      case (_, None) => Ok((None, Some(DuplicateNotGraded)))
      case (Some(o), Some(d)) =>
        if Mean(o, d) == 0.0 then Ok((None, Some(PairMeanZero)))
        else
          var stats := PairStats(Mean(o, d), AbsDiff(o, d), Rpd(o, d));
          Ok((Some(stats), if stats.rpdPercent > maxRpd then Some(DuplicateRpdAboveMax) else None))
  }

  function CrmZScore(m: MeasuredValue, certified: real, uncertainty: real): (Option<real>, Option<Advisory>)
    requires m.Valid()
  {
    if uncertainty <= 0.0 then (None, Some(CrmUncertaintyInvalid))
    else if m.censored then (None, Some(CrmNonDetect))
    else (Some(Round(Over(Round(m.value.value - certified), uncertainty))), None)
  }

  function BlankAdvisory(m: MeasuredValue, threshold: real): Result<Option<Advisory>, QcError>
    requires m.Valid()
  {
    if threshold <= 0.0 then Err(LimitNotPositive)
    else Ok(if !m.censored && m.value.value > threshold then Some(BlankAboveThreshold) else None)
  }

  // ----- Positivity and symmetry ---------------------------------------------------------

  lemma MeanPositive(o: real, d: real)
    requires o > 0.0 && d > 0.0
    ensures Mean(o, d) > 0.0
  {
    RoundSign(o + d);
    RoundSign(Round(o + d) / 2.0);
  }

  /** Swapping the pair changes nothing. */
  lemma PairSymmetric(o: real, d: real)
    ensures Mean(o, d) == Mean(d, o) && AbsDiff(o, d) == AbsDiff(d, o)
    ensures Mean(o, d) != 0.0 ==> Rpd(o, d) == Rpd(d, o)
  {
  }

  // ----- What the statistics are ---------------------------------------------------------

  lemma NearAbs(x: real, y: real)
    requires y == Round(x)
    ensures Near(Abs(x), Abs(y), 1)
  {
    RoundSign(x);
    NearRound(Abs(x), Abs(x), 0);
  }

  /** Mean, absolute difference and relative difference are their formulas to within the roundings made. */
  lemma StatisticsNear(o: real, d: real)
    requires o > 0.0 && d > 0.0
    ensures Mean(o, d) > 0.0
    ensures Near((o + d) / 2.0, Mean(o, d), 2)
    ensures Near(Abs(d - o), AbsDiff(o, d), 2)
    ensures Near(Over(AbsDiff(o, d), Mean(o, d)) * 100.0, Rpd(o, d), 2)
  {
    MeanPositive(o, d);
    MeanNear(o, d);
    NearAbs(d - o, Round(d - o));
    NearRound(Abs(d - o), Abs(Round(d - o)), 1);
    RoundSign(Abs(Round(d - o)));
    RpdNear(AbsDiff(o, d), Mean(o, d));
  }

  lemma MeanNear(o: real, d: real)
    requires o > 0.0 && d > 0.0
    ensures Near((o + d) / 2.0, Mean(o, d), 2)
  {
    NearRound(o + d, o + d, 0);
    NearOver(o + d, Round(o + d), 2.0, 1);
    NearRound((o + d) / 2.0, Round(o + d) / 2.0, 1);
  }

  lemma RpdNear(diff: real, mean: real)
    requires diff >= 0.0 && mean > 0.0
    ensures Near(Over(diff, mean) * 100.0, Round(Round(Over(diff, mean)) * 100.0), 2)
  {
    var q := Over(diff, mean);
    SignOfOver(diff, mean);
    NearRound(q, q, 0);
    NearTimes(q, Round(q), 100.0, 1);
    NearRound(q * 100.0, Round(q) * 100.0, 1);
  }

  /** The z-score is measured minus certified over uncertainty, sign included, to within two roundings. */
  lemma ZScoreNear(m: MeasuredValue, certified: real, uncertainty: real)
    requires m.Valid() && !m.censored && uncertainty > 0.0
    ensures var z := CrmZScore(m, certified, uncertainty);
      && z.0.Some? && z.1.None?
      && (z.0.value > 0.0 <==> m.value.value > certified)
      && Near(Abs(m.value.value - certified) / uncertainty, Abs(z.0.value), 2)
  {
    var x := m.value.value - certified;
    var y := Round(x);
    RoundSign(x);
    SignOfOver(y, uncertainty);
    RoundSign(Over(y, uncertainty));
    NearAbs(x, y);
    NearOver(Abs(x), Abs(y), uncertainty, 1);
    SignOfOver(Abs(x), uncertainty);
    NearRound(Over(Abs(x), uncertainty), Over(Abs(y), uncertainty), 1);
    assert Over(Abs(y), uncertainty) == Abs(Over(y, uncertainty));
    RoundSign(Abs(Over(y, uncertainty)));
  }

  // ----- How far above 200 % the relative difference can round ------------------------------

  /** The 34-digit coefficient of a positive number: its digits with the point removed. */
  function CoefficientLarge(x: real): int
    requires 1.0 <= x
    decreases x.Floor
  {
    if x < 10.0 then (x * K).Floor else CoefficientLarge(x / 10.0)
  }

  function CoefficientSmall(x: real): int
    requires 0.0 < x < 1.0
    decreases (1.0 / x).Floor
  {
    if x * 10.0 >= 1.0 then (x * 10.0 * K).Floor
    else
      ReciprocalShrinks(x);
      CoefficientSmall(x * 10.0)
  }

  function Coefficient(x: real): int
    requires x > 0.0
  {
    if x >= 1.0 then CoefficientLarge(x) else CoefficientSmall(x)
  }

  /**
   The pairs whose relative difference rounds past 200 %: the smaller grade vanishes in the
   sum, and halving the larger rounds down far enough for the quotient to round up.
   */
  predicate Overshoots(larger: real, smaller: real)
    requires larger > 0.0
  {
    Round(larger + smaller) == larger &&
    Coefficient(larger) % 4 == 1 &&
    2000000000000000000000000000000000 < Coefficient(larger) < 4000000000000000000000000000000000
  }

  lemma RoundNearUnit(x: real)
    requires 0.0 < x < 10.0
    ensures -0.5 <= (Round(x) - x) * K <= 0.5
  {
    if x >= 1.0 {
      assert Round(x) == RoundUnit(Pinned, x);
    } else {
      RoundError(x);
    }
  }

  lemma RoundOnGrid(x: real)
    requires 1.0 <= x < 10.0
    ensures Round(x) * K == HalfEven(x * K) as real
  {
  }

  /** Numbers on the 33-decimal grid below ten have at most 34 digits. */
  lemma GridFixed(n: int)
    requires 0 < n <= 10000000000000000000000000000000000
    ensures Round(n as real / K) == n as real / K
  {
    var x := n as real / K;
    assert x * K == n as real;
    HalfEvenFixed(n);
    if x >= 10.0 {
      assert x == 10.0;
      assert RoundLarge(Pinned, 10.0) == 10.0 * RoundLarge(Pinned, 1.0);
      HalfEvenFixed(1000000000000000000000000000000000);
    } else if x < 1.0 {
      GridFixedSmall(x, n);
    }
  }

  lemma {:induction false} GridFixedSmall(x: real, n: int)
    requires 0.0 < x < 1.0 && x * K == n as real
    ensures RoundSmall(Pinned, x) == x
    decreases (1.0 / x).Floor
  {
    if x * 10.0 >= 1.0 {
      HalfEvenFixed(10 * n);
      assert x * 10.0 * K == (10 * n) as real;
    } else {
      ReciprocalShrinks(x);
      GridFixedSmall(x * 10.0, 10 * n);
    }
  }

  lemma OverCompare(a: real, m: real, t: real)
    requires m > 0.0
    ensures Over(a, m) <= t <==> a <= Times(t, m)
  {
  }

  /** A quotient at most two gives at most 200 %. */
  lemma AtMostTwice(a: real, mean: real)
    requires 0.0 <= a <= 2.0 * mean && mean > 0.0
    ensures 0.0 <= Round(Round(Over(a, mean)) * 100.0) <= 200.0
  {
    OverCompare(a, mean, 2.0);
    assert Times(2.0, mean) == 2.0 * mean;
    SignOfOver(a, mean);
    RoundMonotone(0.0, Over(a, mean));
    RoundMonotone(Over(a, mean), 2.0);
    GridFixed(2000000000000000000000000000000000);
    var r := Round(Over(a, mean));
    RoundMonotone(0.0, r * 100.0);
    RoundMonotone(r * 100.0, 200.0);
    RoundTimesTen(2.0);
    RoundTimesTen(20.0);
  }

  /** A quotient above two by more than half a last digit rounds past 200 %, by one last digit. */
  lemma JustAboveTwice(a: real, mean: real)
    requires mean > 0.0 && 2.0 * mean * K + 0.5 * mean < a * K <= 2.0 * mean * K + mean
    ensures Round(Round(Over(a, mean)) * 100.0) == 200.0 + 100.0 / K
  {
    var q := Over(a, mean);
    OverCompare(a, mean, 2.0 + 0.5 / K);
    assert Times(2.0 + 0.5 / K, mean) == 2.0 * mean + 0.5 * mean / K;
    OverCompare(a, mean, 2.0 + 1.0 / K);
    assert Times(2.0 + 1.0 / K, mean) == 2.0 * mean + mean / K;
    assert HalfEven(q * K) == 2000000000000000000000000000000001;
    var r := Round(q);
    assert r == 2.0 + 1.0 / K;
    GridFixed(2000000000000000000000000000000001);
    RoundTimesTen(r);
    RoundTimesTen(10.0 * r);
  }

  /** A quotient above two by at most half a last digit still rounds to two. */
  lemma BarelyAboveTwice(a: real, mean: real)
    requires mean > 0.0 && 2.0 * mean < a && a * K <= 2.0 * mean * K + 0.5 * mean
    ensures Round(Round(Over(a, mean)) * 100.0) == 200.0
  {
    var q := Over(a, mean);
    OverCompare(a, mean, 2.0);
    assert Times(2.0, mean) == 2.0 * mean;
    OverCompare(a, mean, 2.0 + 0.5 / K);
    assert Times(2.0 + 0.5 / K, mean) == 2.0 * mean + 0.5 * mean / K;
    assert HalfEven(q * K) == 2000000000000000000000000000000000;
    GridFixed(2000000000000000000000000000000000);
    RoundTimesTen(2.0);
    RoundTimesTen(20.0);
  }

  lemma AbsDiffIsRounded(larger: real, smaller: real)
    requires 0.0 < smaller <= larger && Fits(larger)
    ensures AbsDiff(larger, smaller) == Round(larger - smaller)
    ensures 0.0 <= Round(larger - smaller) <= larger
  {
    var x := larger - smaller;
    RoundSign(x);
    assert smaller - larger == -x;
    RoundIdentityIff(x);
    RoundMonotone(0.0, x);
    RoundMonotone(x, larger);
    RoundIdentityIff(larger);
  }

  /** When the sum rounds above the larger grade, the mean is at least half of it. */
  lemma MeanWhenSumGrows(larger: real, c: int, sum: real)
    requires 1.0 <= larger < 10.0 && larger * K == c as real
    requires sum * K >= (c + 1) as real || sum >= 10.0
    ensures Round(sum / 2.0) >= larger / 2.0
  {
    var half := sum / 2.0;
    if sum >= 10.0 {
      RoundMonotone(5.0, half);
      GridFixed(5000000000000000000000000000000000);
    } else {
      RoundNearUnit(half);
    }
  }

  lemma SumOnGrid(larger: real, smaller: real, c: int)
    requires 1.0 <= larger < 10.0 && larger * K == c as real && 0.0 < smaller
    ensures var sum := Round(larger + smaller);
      sum == larger || sum * K >= (c + 1) as real || sum >= 10.0
  {
    var x := larger + smaller;
    if x < 10.0 {
      HalfEvenFixed(c);
      HalfEvenMonotone(larger * K, x * K);
      RoundOnGrid(x);
    } else {
      RoundMonotone(10.0, x);
      GridFixed(10000000000000000000000000000000000);
    }
  }

  /** Half of a 34-digit number is exact unless its coefficient is odd and at least 2e33. */
  lemma HalfExact(larger: real, c: int)
    requires 1.0 <= larger < 10.0 && larger * K == c as real
    requires c % 2 == 0 || c < 2000000000000000000000000000000000
    ensures Round(larger / 2.0) == larger / 2.0
  {
    if c % 2 == 0 {
      GridFixed(c / 2);
      assert (c / 2) as real / K == larger / 2.0;
    } else {
      GridFixed(5 * c);
      assert (5 * c) as real / K == 10.0 * (larger / 2.0);
      RoundTimesTen(larger / 2.0);
    }
  }

  lemma HalfEvenOfHalf(y: real, n: int)
    requires y == n as real + 0.5
    ensures HalfEven(y) == if n % 2 == 0 then n else n + 1
  {
  }

  lemma HalfOdd(larger: real, n: int)
    requires 1.0 <= larger < 10.0 && larger * K == (2 * n + 1) as real
    requires n >= 1000000000000000000000000000000000
    ensures Round(larger / 2.0) * K == (if n % 2 == 0 then n else n + 1) as real
  {
    HalfEvenOfHalf(larger / 2.0 * K, n);
    RoundOnGrid(larger / 2.0);
  }

  /** A smaller grade that vanishes in the sum of an odd coefficient vanishes in the difference too. */
  lemma DifferenceVanishes(larger: real, smaller: real, c: int)
    requires 1.0 < larger < 10.0 && larger * K == c as real && c % 2 == 1
    requires 0.0 < smaller && Round(larger + smaller) == larger
    requires c > 2000000000000000000000000000000000
    ensures Round(larger - smaller) == larger
  {
    var x, y := larger + smaller, larger - smaller;
    if x >= 10.0 {
      RoundMonotone(10.0, x);
      GridFixed(10000000000000000000000000000000000);
    }
    RoundOnGrid(x);
    assert HalfEven(x * K) == c;
    assert smaller * K < 0.5;
    RoundOnGrid(y);
    assert HalfEven(y * K) == c;
  }

  lemma MeanAtLeastHalf(larger: real, smaller: real)
    requires Fits(larger) && 0.0 < smaller <= larger
    requires Mean(larger, smaller) >= larger / 2.0
    ensures 0.0 <= Rpd(larger, smaller) <= 200.0
  {
    AbsDiffIsRounded(larger, smaller);
    AtMostTwice(Round(larger - smaller), Mean(larger, smaller));
  }

  lemma EvenOrGrowing(larger: real, smaller: real, c: int)
    requires 1.0 <= larger < 10.0 && 0.0 < smaller
    requires larger * K == c as real
    requires Round(larger + smaller) != larger || c % 2 == 0 || c < 2000000000000000000000000000000000
    ensures Mean(larger, smaller) >= larger / 2.0
  {
    var sum := Round(larger + smaller);
    SumOnGrid(larger, smaller, c);
    MeanOfSum(larger, c, sum);
    assert Mean(larger, smaller) == Round(sum / 2.0);
  }

  lemma MeanOfSum(larger: real, c: int, sum: real)
    requires 1.0 <= larger < 10.0 && larger * K == c as real
    requires sum == larger || sum * K >= (c + 1) as real || sum >= 10.0
    requires sum != larger || c % 2 == 0 || c < 2000000000000000000000000000000000
    ensures Round(sum / 2.0) >= larger / 2.0
  {
    if sum != larger {
      MeanWhenSumGrows(larger, c, sum);
    } else {
      HalfExact(larger, c);
    }
  }

  lemma OddMean(larger: real, smaller: real, n: int)
    requires 1.0 <= larger < 10.0 && larger * K == (2 * n + 1) as real && n >= 1000000000000000000000000000000000
    requires Round(larger + smaller) == larger
    ensures Mean(larger, smaller) * K == (if n % 2 == 0 then n else n + 1) as real
    ensures n % 2 == 1 ==> Mean(larger, smaller) >= larger / 2.0
  {
    HalfOdd(larger, n);
  }

  lemma OddCoefficient(n: int)
    ensures (2 * n + 1) % 2 == 1
  {
  }

  lemma OddDifference(larger: real, smaller: real, n: int)
    requires 1.0 <= larger < 10.0 && Fits(larger) && 0.0 < smaller <= larger
    requires larger * K == (2 * n + 1) as real && n >= 1000000000000000000000000000000000
    requires Round(larger + smaller) == larger
    ensures AbsDiff(larger, smaller) == larger
  {
    AbsDiffIsRounded(larger, smaller);
    var c := 2 * n + 1;
    OddCoefficient(n);
    assert larger * K == c as real;
    DifferenceVanishes(larger, smaller, c);
  }

  lemma RpdOfTwicePlusDigit(mean: real, diff: real, n: int)
    requires n >= 1000000000000000000000000000000000
    requires mean * K == n as real && diff * K == 2.0 * mean * K + 1.0
    ensures mean > 0.0
    ensures n < 2000000000000000000000000000000000 ==> Round(Round(Over(diff, mean)) * 100.0) == 200.0 + 100.0 / K
    ensures n >= 2000000000000000000000000000000000 ==> Round(Round(Over(diff, mean)) * 100.0) == 200.0
  {
    if n < 2000000000000000000000000000000000 {
      JustAboveTwice(diff, mean);
    } else {
      BarelyAboveTwice(diff, mean);
    }
  }

  lemma OddCase(larger: real, smaller: real, n: int)
    requires 1.0 <= larger < 10.0 && Fits(larger) && 0.0 < smaller <= larger && Mean(larger, smaller) > 0.0
    requires larger * K == (2 * n + 1) as real && n >= 1000000000000000000000000000000000
    requires Round(larger + smaller) == larger
    ensures RpdIs(n % 2 == 0 && n < 2000000000000000000000000000000000, Rpd(larger, smaller))
  {
    OddMean(larger, smaller, n);
    if n % 2 == 1 {
      MeanAtLeastHalf(larger, smaller);
    } else {
      OddDifference(larger, smaller, n);
      RpdOfTwicePlusDigit(Mean(larger, smaller), larger, n);
    }
  }

  lemma OvershootsMeans(larger: real, smaller: real, c: int)
    requires 1.0 <= larger < 10.0 && larger * K == c as real
    ensures Overshoots(larger, smaller) <==>
      Round(larger + smaller) == larger && c % 4 == 1 &&
      2000000000000000000000000000000000 < c < 4000000000000000000000000000000000
  {
  }

  lemma FitsOnGrid(larger: real) returns (c: int)
    requires 1.0 <= larger < 10.0 && Fits(larger)
    ensures larger * K == c as real
  {
    c := (larger * K).Floor;
  }

  predicate RpdIs(overshoots: bool, r: real) {
    if overshoots then r == 200.0 + 100.0 / K else 0.0 <= r <= 200.0
  }

  lemma GrowingCase(larger: real, smaller: real, c: int)
    requires 1.0 <= larger < 10.0 && Fits(larger) && 0.0 < smaller <= larger && Mean(larger, smaller) > 0.0
    requires larger * K == c as real
    ensures Round(larger + smaller) != larger || c % 2 == 0 || c < 2000000000000000000000000000000000
        ==> RpdIs(false, Rpd(larger, smaller))
  {
    if Round(larger + smaller) != larger || c % 2 == 0 || c < 2000000000000000000000000000000000 {
      EvenOrGrowing(larger, smaller, c);
      MeanAtLeastHalf(larger, smaller);
    }
  }

  lemma VanishingCase(larger: real, smaller: real, n: int)
    requires 1.0 <= larger < 10.0 && Fits(larger) && 0.0 < smaller <= larger && Mean(larger, smaller) > 0.0
    ensures Round(larger + smaller) == larger && larger * K == (2 * n + 1) as real &&
        n >= 1000000000000000000000000000000000
        ==> RpdIs(n % 2 == 0 && n < 2000000000000000000000000000000000, Rpd(larger, smaller))
  {
    if Round(larger + smaller) == larger && larger * K == (2 * n + 1) as real &&
        n >= 1000000000000000000000000000000000 {
      OddCase(larger, smaller, n);
    }
  }

  lemma Decide(c: int, n: int, vanishes: bool, overshoots: bool, r: real)
    requires n == c / 2
    requires overshoots <==>
      (vanishes && c % 4 == 1 && 2000000000000000000000000000000000 < c < 4000000000000000000000000000000000)
    requires !vanishes || c % 2 == 0 || c < 2000000000000000000000000000000000 ==> RpdIs(false, r)
    requires vanishes && c == 2 * n + 1 && n >= 1000000000000000000000000000000000
      ==> RpdIs(n % 2 == 0 && n < 2000000000000000000000000000000000, r)
    ensures RpdIs(overshoots, r)
  {
  }

  /** The pairs with the larger grade's leading digit just before the point. */
  lemma OvershootIffUnit(larger: real, smaller: real)
    requires 1.0 <= larger < 10.0 && Fits(larger) && 0.0 < smaller <= larger && Mean(larger, smaller) > 0.0
    ensures RpdIs(Overshoots(larger, smaller), Rpd(larger, smaller))
  {
    var c := FitsOnGrid(larger);
    var n := c / 2;
    GrowingCase(larger, smaller, c);
    VanishingCase(larger, smaller, n);
    OvershootsMeans(larger, smaller, c);
    Decide(c, n, Round(larger + smaller) == larger, Overshoots(larger, smaller), Rpd(larger, smaller));
  }

  // ----- The same at every magnitude ------------------------------------------------------------

  lemma MeanShift(o: real, d: real)
    ensures Mean(10.0 * o, 10.0 * d) == 10.0 * Mean(o, d)
  {
    RoundTimesTen(o + d);
    RoundTimesTen(Round(o + d) / 2.0);
    assert 10.0 * o + 10.0 * d == 10.0 * (o + d);
  }

  lemma DiffShift(o: real, d: real)
    ensures AbsDiff(10.0 * o, 10.0 * d) == 10.0 * AbsDiff(o, d)
  {
    RoundTimesTen(d - o);
    RoundTimesTen(Abs(Round(d - o)));
    assert 10.0 * d - 10.0 * o == 10.0 * (d - o);
    assert Abs(10.0 * Round(d - o)) == 10.0 * Abs(Round(d - o));
  }

  lemma RpdShift(o: real, d: real)
    requires Mean(o, d) > 0.0
    ensures Mean(10.0 * o, 10.0 * d) == 10.0 * Mean(o, d)
    ensures Rpd(10.0 * o, 10.0 * d) == Rpd(o, d)
  {
    MeanShift(o, d);
    DiffShift(o, d);
    OverShift(AbsDiff(o, d), Mean(o, d));
  }

  lemma OverShift(a: real, m: real)
    requires m > 0.0
    ensures Over(10.0 * a, 10.0 * m) == Over(a, m)
  {
  }

  lemma OvershootShift(larger: real, smaller: real)
    requires larger > 0.0
    ensures Overshoots(10.0 * larger, 10.0 * smaller) <==> Overshoots(larger, smaller)
  {
  }

  lemma PairShift(larger: real, smaller: real, x: real, y: real)
    requires larger > 0.0 && x == larger * 10.0 && y == smaller * 10.0 && Mean(larger, smaller) > 0.0
    ensures Mean(x, y) > 0.0
    ensures RpdIs(Overshoots(x, y), Rpd(x, y)) <==> RpdIs(Overshoots(larger, smaller), Rpd(larger, smaller))
  {
    OvershootShift(larger, smaller);
    RpdShift(larger, smaller);
    assert x == 10.0 * larger && y == 10.0 * smaller;
  }

  lemma Tenths(larger: real, smaller: real) returns (x: real, y: real)
    requires 10.0 <= larger && Fits(larger) && 0.0 < smaller <= larger
    ensures larger == x * 10.0 && smaller == y * 10.0
    ensures 1.0 <= x && x.Floor < larger.Floor && 0.0 < y <= x && Fits(x)
  {
    x, y := larger / 10.0, smaller / 10.0;
    assert 10.0 * x == larger;
    FitsTimesTen(Pinned, x);
  }

  lemma {:induction false} OvershootIffLarge(larger: real, smaller: real)
    requires 1.0 <= larger && Fits(larger) && 0.0 < smaller <= larger && Mean(larger, smaller) > 0.0
    ensures RpdIs(Overshoots(larger, smaller), Rpd(larger, smaller))
    decreases larger.Floor
  {
    if larger < 10.0 {
      OvershootIffUnit(larger, smaller);
    } else {
      var x, y := Tenths(larger, smaller);
      MeanPositive(x, y);
      PairShift(x, y, larger, smaller);
      OvershootIffLarge(x, y);
    }
  }

  lemma {:induction false} OvershootIffSmall(larger: real, smaller: real)
    requires 0.0 < larger < 1.0 && Fits(larger) && 0.0 < smaller <= larger && Mean(larger, smaller) > 0.0
    ensures RpdIs(Overshoots(larger, smaller), Rpd(larger, smaller))
    decreases (1.0 / larger).Floor
  {
    var x, y := larger * 10.0, smaller * 10.0;
    FitsTimesTen(Pinned, larger);
    PairShift(larger, smaller, x, y);
    if x >= 1.0 {
      OvershootIffUnit(x, y);
    } else {
      ReciprocalShrinks(larger);
      OvershootIffSmall(x, y);
    }
  }

  /**
   For two positive grades of at most 34 digits, in either order, the relative difference
   lies in 0 to 200 percent exactly when the pair does not overshoot; if it does, it is one
   last digit above.
   */
  lemma RpdWithin200Iff(o: real, d: real)
    requires o > 0.0 && d > 0.0 && Fits(o) && Fits(d)
    ensures Mean(o, d) > 0.0
    ensures var larger, smaller := if o >= d then o else d, if o >= d then d else o;
      (0.0 <= Rpd(o, d) <= 200.0 <==> !Overshoots(larger, smaller)) &&
      (Overshoots(larger, smaller) ==> Rpd(o, d) == 200.0 + 100.0 / K)
  {
    var larger, smaller := if o >= d then o else d, if o >= d then d else o;
    MeanPositive(o, d);
    MeanPositive(d, o);
    PairSymmetric(o, d);
    if larger >= 1.0 {
      OvershootIffLarge(larger, smaller);
    } else {
      OvershootIffSmall(larger, smaller);
    }
  }

  /** A concrete pair of grades whose relative difference is above 200 percent. */
  lemma RpdAbove200()
    ensures var larger := 2000000000000000000000000000000001.0 / K; var smaller := 0.1 / K;
      Fits(larger) && Fits(smaller) && Mean(larger, smaller) > 0.0 && Rpd(larger, smaller) > 200.0
  {
    var c := 2000000000000000000000000000000001;
    var larger, smaller := c as real / K, 0.1 / K;
    assert larger * K == c as real;
    GridFixed(1);
    GridFixed(c);
    RoundIdentityIff(larger);
    RoundTimesTen(0.1 / K);
    RoundIdentityIff(0.1 / K);
    assert HalfEven((larger + smaller) * K) == c;
    RoundOnGrid(larger + smaller);
    MeanPositive(larger, smaller);
    OvershootIffUnit(larger, smaller);
  }
}
