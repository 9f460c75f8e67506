/**
 Decimal arithmetic: every operation is exact in the reals and then rounded half-even to the
 significant digits of its context, 34 in the pinned one the domain code enters and 28 in
 Python's default one. Exponent limits are not modelled.
 */
module Decimals {

  /** 10^33: how many last digits fit in one leading digit of the pinned context. */
  const K: real := 1000000000000000000000000000000000.0

  /** 10^27, the same for the default context. */
  const K28: real := 1000000000000000000000000000.0

  datatype Context = Pinned | Default

  /** u * x for u = 5e-34, the relative error bound of one rounding. */
  function Slack(x: real): real {
    x / 2000000000000000000000000000000000.0
  }

  /** The error bound of one rounding in a context: 5e-34 or 5e-28 of the number. */
  function SlackIn(c: Context, x: real): real {
    match c
    case Pinned => Slack(x)
    case Default => x / 2000000000000000000000000000.0
  }

  function HalfEven(y: real): (n: int)
    ensures -0.5 <= n as real - y <= 0.5
  {
    var f := y.Floor;
    var frac := y - f as real;
    if frac < 0.5 || (frac == 0.5 && f % 2 == 0) then f else f + 1
  }

  lemma HalfEvenMonotone(x: real, y: real)
    requires x <= y
    ensures HalfEven(x) <= HalfEven(y)
  {
  }

  lemma HalfEvenFixed(n: int)
    ensures HalfEven(n as real) == n
  {
  }

  lemma HalfEvenNear(y: real, n: int)
    requires -0.5 < y - n as real < 0.5
    ensures HalfEven(y) == n
  {
  }

  // ----- Rounding ------------------------------------------------------------------------

  /** One digit before the point, the rest of the context's digits after it. */
  function RoundUnit(c: Context, x: real): real
    requires 1.0 <= x < 10.0
  {
    match c
    case Pinned => HalfEven(x * K) as real / K
    case Default => HalfEven(x * K28) as real / K28
  }

  function RoundLarge(c: Context, x: real): real
    requires 1.0 <= x
    decreases x.Floor
  {
    if x < 10.0 then RoundUnit(c, x) else 10.0 * RoundLarge(c, x / 10.0)
  }

  lemma ReciprocalShrinks(x: real)
    requires 0.0 < x && x * 10.0 < 1.0
    ensures 0 <= (1.0 / (x * 10.0)).Floor < (1.0 / x).Floor
  {
  }

  function RoundSmall(c: Context, x: real): real
    requires 0.0 < x < 1.0
    decreases (1.0 / x).Floor
  {
    if x * 10.0 >= 1.0 then RoundUnit(c, x * 10.0) / 10.0
    else
      ReciprocalShrinks(x);
      RoundSmall(c, x * 10.0) / 10.0
  }

  function RoundPositive(c: Context, x: real): real
    requires x > 0.0
  {
    if x >= 1.0 then RoundLarge(c, x) else RoundSmall(c, x)
  }

  /** ROUND_HALF_EVEN at the significant digits of the context. */
  function RoundIn(c: Context, x: real): real {
    if x == 0.0 then 0.0 else if x > 0.0 then RoundPositive(c, x) else -RoundPositive(c, -x)
  }

  /** Rounding in the pinned context. */
  function Round(x: real): real {
    RoundIn(Pinned, x)
  }

  // ----- Error ---------------------------------------------------------------------------

  lemma HalfEvenBetween(y: real, low: int, high: int)
    requires low as real <= y <= high as real
    ensures low <= HalfEven(y) <= high
  {
  }

  lemma PinnedUnitError(x: real)
    requires 1.0 <= x < 10.0
    ensures x - Slack(x) <= RoundUnit(Pinned, x) <= x + Slack(x)
    ensures 1.0 <= RoundUnit(Pinned, x) <= 10.0
  {
    var n := HalfEven(x * K);
    HalfEvenBetween(x * K, 1000000000000000000000000000000000, 10000000000000000000000000000000000);
    assert x - 0.5 / K <= n as real / K <= x + 0.5 / K;
  }

  lemma DefaultUnitError(x: real)
    requires 1.0 <= x < 10.0
    ensures x - SlackIn(Default, x) <= RoundUnit(Default, x) <= x + SlackIn(Default, x)
    ensures 1.0 <= RoundUnit(Default, x) <= 10.0
  {
    var n := HalfEven(x * K28);
    HalfEvenBetween(x * K28, 1000000000000000000000000000, 10000000000000000000000000000);
    assert x - 0.5 / K28 <= n as real / K28 <= x + 0.5 / K28;
  }

  lemma RoundUnitError(c: Context, x: real)
    requires 1.0 <= x < 10.0
    ensures x - SlackIn(c, x) <= RoundUnit(c, x) <= x + SlackIn(c, x)
    ensures 1.0 <= RoundUnit(c, x) <= 10.0
  {
    match c
    case Pinned => PinnedUnitError(x);
    case Default => DefaultUnitError(x);
  }

  lemma {:induction false} RoundLargeError(c: Context, x: real)
    requires 1.0 <= x
    ensures x - SlackIn(c, x) <= RoundLarge(c, x) <= x + SlackIn(c, x)
    ensures 1.0 <= RoundLarge(c, x)
    ensures x < 10.0 ==> RoundLarge(c, x) <= 10.0
    ensures 10.0 <= x ==> 10.0 <= RoundLarge(c, x)
    decreases x.Floor
  {
    if x < 10.0 {
      RoundUnitError(c, x);
    } else {
      RoundLargeError(c, x / 10.0);
      assert SlackIn(c, x) == 10.0 * SlackIn(c, x / 10.0);
    }
  }

  lemma {:induction false} RoundSmallError(c: Context, x: real)
    requires 0.0 < x < 1.0
    ensures x - SlackIn(c, x) <= RoundSmall(c, x) <= x + SlackIn(c, x)
    ensures 0.0 < RoundSmall(c, x) <= 1.0
    ensures x < 0.1 ==> RoundSmall(c, x) <= 0.1
    ensures 0.1 <= x ==> 0.1 <= RoundSmall(c, x)
    decreases (1.0 / x).Floor
  {
    if x * 10.0 >= 1.0 {
      RoundUnitError(c, x * 10.0);
    } else {
      ReciprocalShrinks(x);
      RoundSmallError(c, x * 10.0);
    }
    assert SlackIn(c, x * 10.0) == 10.0 * SlackIn(c, x);
  }

  lemma RoundErrorIn(c: Context, x: real)
    requires x >= 0.0
    ensures x - SlackIn(c, x) <= RoundIn(c, x) <= x + SlackIn(c, x)
  {
    if x >= 1.0 {
      RoundLargeError(c, x);
    } else if x > 0.0 {
      RoundSmallError(c, x);
    }
  }

  /** One rounding in the pinned context moves a number by at most 5e-34 of itself. */
  lemma RoundError(x: real)
    requires x >= 0.0
    ensures x - Slack(x) <= Round(x) <= x + Slack(x)
  {
    RoundErrorIn(Pinned, x);
  }

  /** A number less than half a last digit away from a grid point is rounded to it. */
  lemma RoundsToGrid(x: real, n: int)
    requires 1.0 <= x < 10.0 && -0.5 < x * K - n as real < 0.5
    ensures Round(x) == n as real / K
  {
    HalfEvenNear(x * K, n);
  }

  // ----- Order and sign --------------------------------------------------------------------

  lemma RoundSign(x: real)
    ensures x > 0.0 <==> Round(x) > 0.0
    ensures x == 0.0 <==> Round(x) == 0.0
    ensures Round(-x) == -Round(x)
  {
    RoundError(if x >= 0.0 then x else -x);
  }

  lemma RoundUnitMonotone(x: real, y: real)
    requires 1.0 <= x <= y < 10.0
    ensures RoundUnit(Pinned, x) <= RoundUnit(Pinned, y)
  {
    HalfEvenMonotone(x * K, y * K);
  }

  lemma {:induction false} RoundLargeMonotone(x: real, y: real)
    requires 1.0 <= x <= y
    ensures RoundLarge(Pinned, x) <= RoundLarge(Pinned, y)
    decreases x.Floor
  {
    if y < 10.0 {
      RoundUnitMonotone(x, y);
    } else if x >= 10.0 {
      RoundLargeMonotone(x / 10.0, y / 10.0);
    } else {
      RoundLargeError(Pinned, x);
      RoundLargeError(Pinned, y);
    }
  }

  lemma {:induction false} RoundSmallMonotone(x: real, y: real)
    requires 0.0 < x <= y < 1.0
    ensures RoundSmall(Pinned, x) <= RoundSmall(Pinned, y)
    decreases (1.0 / x).Floor
  {
    if x * 10.0 >= 1.0 {
      RoundUnitMonotone(x * 10.0, y * 10.0);
    } else if y * 10.0 < 1.0 {
      ReciprocalShrinks(x);
      RoundSmallMonotone(x * 10.0, y * 10.0);
    } else {
      RoundSmallError(Pinned, x);
      RoundSmallError(Pinned, y);
    }
  }

  lemma RoundPositiveMonotone(x: real, y: real)
    requires 0.0 < x <= y
    ensures RoundPositive(Pinned, x) <= RoundPositive(Pinned, y)
  {
    if x >= 1.0 {
      RoundLargeMonotone(x, y);
    } else if y < 1.0 {
      RoundSmallMonotone(x, y);
    } else {
      RoundSmallError(Pinned, x);
      RoundLargeError(Pinned, y);
    }
  }

  /** Rounding never reverses an order. */
  lemma RoundMonotone(x: real, y: real)
    requires x <= y
    ensures Round(x) <= Round(y)
  {
    RoundSign(x);
    RoundSign(y);
    if x > 0.0 {
      RoundPositiveMonotone(x, y);
    } else if y < 0.0 {
      RoundPositiveMonotone(-y, -x);
    }
  }

  // ----- Shifting the point, and numbers of at most 34 digits ------------------------------------

  /** Shifting the decimal point commutes with rounding. */
  lemma RoundTimesTen(x: real)
    ensures Round(10.0 * x) == 10.0 * Round(x)
  {
  }

  lemma RoundTimesThousand(x: real)
    ensures Round(1000.0 * x) == 1000.0 * Round(x)
    ensures Round(x / 1000.0) == Round(x) / 1000.0
  {
    RoundTimesTen(x);
    RoundTimesTen(10.0 * x);
    RoundTimesTen(100.0 * x);
    var y := x / 1000.0;
    RoundTimesTen(y);
    RoundTimesTen(10.0 * y);
    RoundTimesTen(100.0 * y);
  }

  /** With the leading digit just before the point, 33 decimals suffice. */
  predicate IsWhole(y: real) {
    y == y.Floor as real
  }

  predicate OnGrid(c: Context, x: real) {
    match c
    case Pinned => IsWhole(x * K)
    case Default => IsWhole(x * K28)
  }

  predicate FitsLarge(c: Context, x: real)
    requires 1.0 <= x
    decreases x.Floor
  {
    if x < 10.0 then OnGrid(c, x) else FitsLarge(c, x / 10.0)
  }

  predicate FitsSmall(c: Context, x: real)
    requires 0.0 < x < 1.0
    decreases (1.0 / x).Floor
  {
    if x * 10.0 >= 1.0 then OnGrid(c, x * 10.0)
    else
      ReciprocalShrinks(x);
      FitsSmall(c, x * 10.0)
  }

  /** The number is written with at most the significant digits of the context. */
  predicate FitsIn(c: Context, x: real) {
    var a := if x >= 0.0 then x else -x;
    a == 0.0 || if a >= 1.0 then FitsLarge(c, a) else FitsSmall(c, a)
  }

  /** The number is written with at most 34 significant digits. */
  predicate Fits(x: real) {
    FitsIn(Pinned, x)
  }

  lemma FitsTimesTen(c: Context, x: real)
    ensures FitsIn(c, 10.0 * x) <==> FitsIn(c, x)
  {
  }

  lemma WholeIffFixed(y: real)
    ensures HalfEven(y) as real == y <==> IsWhole(y)
  {
  }

  lemma QuotientBack(n: real, k: real)
    requires k > 0.0
    ensures n / k * k == n && n * k / k == n
  {
  }

  lemma ScaledOnGrid(x: real, k: real)
    requires k > 0.0
    ensures HalfEven(x * k) as real / k == x <==> IsWhole(x * k)
    ensures IsWhole(HalfEven(x * k) as real / k * k)
  {
    WholeIffFixed(x * k);
    QuotientBack(x, k);
    QuotientBack(HalfEven(x * k) as real, k);
  }

  lemma RoundUnitOnGrid(c: Context, x: real)
    requires 1.0 <= x < 10.0
    ensures RoundUnit(c, x) == x <==> OnGrid(c, x)
    ensures 1.0 <= RoundUnit(c, x) <= 10.0 && OnGrid(c, RoundUnit(c, x))
  {
    RoundUnitError(c, x);
    match c
    case Pinned => ScaledOnGrid(x, K);
    case Default => ScaledOnGrid(x, K28);
  }

  lemma UnitFits(c: Context, r: real)
    requires 1.0 <= r <= 10.0 && OnGrid(c, r)
    ensures FitsLarge(c, r)
  {
    if r == 10.0 {
      assert r / 10.0 == 1.0;
    }
  }

  lemma RoundUnitIdentityIff(c: Context, x: real)
    requires 1.0 <= x < 10.0
    ensures RoundUnit(c, x) == x <==> FitsLarge(c, x)
    ensures 1.0 <= RoundUnit(c, x) <= 10.0 && FitsLarge(c, RoundUnit(c, x))
  {
    RoundUnitOnGrid(c, x);
    UnitFits(c, RoundUnit(c, x));
  }

  lemma {:induction false} RoundLargeIdentityIff(c: Context, x: real)
    requires 1.0 <= x
    ensures RoundLarge(c, x) == x <==> FitsLarge(c, x)
    ensures 1.0 <= RoundLarge(c, x) && FitsLarge(c, RoundLarge(c, x))
    decreases x.Floor
  {
    if x < 10.0 {
      RoundUnitIdentityIff(c, x);
    } else {
      RoundLargeIdentityIff(c, x / 10.0);
      var r := RoundLarge(c, x / 10.0);
      assert 10.0 * r / 10.0 == r;
    }
  }

  lemma TenthFits(c: Context, r: real)
    requires 1.0 <= r && FitsLarge(c, r)
    ensures FitsIn(c, r / 10.0)
  {
    FitsTimesTen(c, r / 10.0);
    assert 10.0 * (r / 10.0) == r;
  }

  lemma RoundSmallTop(c: Context, x: real)
    requires 0.1 <= x < 1.0
    ensures RoundUnit(c, x * 10.0) / 10.0 == x <==> OnGrid(c, x * 10.0)
    ensures RoundUnit(c, x * 10.0) / 10.0 > 0.0 && FitsIn(c, RoundUnit(c, x * 10.0) / 10.0)
  {
    RoundUnitOnGrid(c, x * 10.0);
    UnitFits(c, RoundUnit(c, x * 10.0));
    TenthFits(c, RoundUnit(c, x * 10.0));
  }

  lemma {:induction false} RoundSmallIdentityIff(c: Context, x: real)
    requires 0.0 < x < 1.0
    ensures RoundSmall(c, x) == x <==> FitsSmall(c, x)
    ensures RoundSmall(c, x) > 0.0 && FitsIn(c, RoundSmall(c, x))
    decreases (1.0 / x).Floor
  {
    if x * 10.0 >= 1.0 {
      RoundSmallTop(c, x);
    } else {
      ReciprocalShrinks(x);
      RoundSmallIdentityIff(c, x * 10.0);
      FitsTimesTen(c, RoundSmall(c, x * 10.0) / 10.0);
    }
  }

  /** Rounding is the identity exactly on the numbers that fit its context, and yields only those. */
  lemma RoundIsIdentityIff(c: Context, x: real)
    ensures RoundIn(c, x) == x <==> FitsIn(c, x)
    ensures FitsIn(c, RoundIn(c, x)) && RoundIn(c, RoundIn(c, x)) == RoundIn(c, x)
  {
    RoundFits(c, x);
    RoundFits(c, RoundIn(c, x));
  }

  lemma RoundFits(c: Context, x: real)
    ensures RoundIn(c, x) == x <==> FitsIn(c, x)
    ensures FitsIn(c, RoundIn(c, x))
    ensures x > 0.0 <==> RoundIn(c, x) > 0.0
    ensures x == 0.0 <==> RoundIn(c, x) == 0.0
  {
    var a := if x >= 0.0 then x else -x;
    if a >= 1.0 {
      RoundLargeIdentityIff(c, a);
    } else if a > 0.0 {
      RoundSmallIdentityIff(c, a);
    }
  }

  /** In the pinned context: exactly the numbers of at most 34 digits. */
  lemma RoundIdentityIff(x: real)
    ensures Round(x) == x <==> Fits(x)
    ensures Fits(Round(x)) && Round(Round(x)) == Round(x)
  {
    RoundIsIdentityIff(Pinned, x);
  }

  // ----- Between the two contexts ---------------------------------------------------------------

  lemma {:induction false} FitsLargeWidens(x: real)
    requires 1.0 <= x && FitsLarge(Default, x)
    ensures FitsLarge(Pinned, x)
    decreases x.Floor
  {
    if x >= 10.0 {
      FitsLargeWidens(x / 10.0);
    } else {
      GridWidens(x);
    }
  }

  lemma GridWidens(x: real)
    requires OnGrid(Default, x)
    ensures OnGrid(Pinned, x)
  {
    var n := (x * K28).Floor;
    assert x * K == (n * 1000000) as real;
  }

  lemma {:induction false} FitsSmallWidens(x: real)
    requires 0.0 < x < 1.0 && FitsSmall(Default, x)
    ensures FitsSmall(Pinned, x)
    decreases (1.0 / x).Floor
  {
    if x * 10.0 >= 1.0 {
      GridWidens(x * 10.0);
    } else {
      ReciprocalShrinks(x);
      FitsSmallWidens(x * 10.0);
    }
  }

  /** A number of at most 28 digits has at most 34. */
  lemma FitsWidens(x: real)
    requires FitsIn(Default, x)
    ensures Fits(x)
  {
    var a := if x >= 0.0 then x else -x;
    if a >= 1.0 {
      FitsLargeWidens(a);
    } else if a > 0.0 {
      FitsSmallWidens(a);
    }
  }

  lemma UnitsAgree(x: real)
    requires 1.0 <= x < 10.0 && FitsLarge(Default, RoundUnit(Pinned, x))
    ensures RoundUnit(Default, x) == RoundUnit(Pinned, x)
  {
    RoundUnitOnGrid(Pinned, x);
    var r := RoundUnit(Pinned, x);
    if r < 10.0 {
      UnitsAgreeOnGrid(x, (r * K28).Floor);
    } else {
      UnitsAgreeOnGrid(x, 10000000000000000000000000000);
    }
  }

  lemma UnitsAgreeOnGrid(x: real, m: int)
    requires 1.0 <= x < 10.0 && RoundUnit(Pinned, x) * K28 == m as real
    ensures RoundUnit(Default, x) == RoundUnit(Pinned, x)
  {
    var n := HalfEven(x * K);
    assert n as real == (m * 1000000) as real;
    assert -0.1 <= x * K28 - m as real <= 0.1;
    HalfEvenNear(x * K28, m);
  }

  /** The point shifted right and back again. */
  lemma TenTimesTenth(r: real)
    ensures 10.0 * (r / 10.0) == r && (10.0 * r) / 10.0 == r
  {
  }

  lemma UnitAgrees(x: real)
    requires 1.0 <= x < 10.0 && FitsIn(Default, RoundUnit(Pinned, x))
    ensures RoundUnit(Default, x) == RoundUnit(Pinned, x)
  {
    RoundUnitError(Pinned, x);
    UnitsAgree(x);
  }

  lemma {:induction false} LargeAgree(x: real)
    requires 1.0 <= x && FitsIn(Default, RoundLarge(Pinned, x))
    ensures RoundLarge(Default, x) == RoundLarge(Pinned, x)
    decreases x.Floor
  {
    if x < 10.0 {
      UnitAgrees(x);
    } else {
      FitsTimesTen(Default, RoundLarge(Pinned, x / 10.0));
      LargeAgree(x / 10.0);
    }
  }

  lemma SmallTopAgrees(x: real)
    requires 0.1 <= x < 1.0 && FitsIn(Default, RoundUnit(Pinned, x * 10.0) / 10.0)
    ensures RoundUnit(Default, x * 10.0) == RoundUnit(Pinned, x * 10.0)
  {
    var r := RoundUnit(Pinned, x * 10.0);
    FitsTimesTen(Default, r / 10.0);
    TenTimesTenth(r);
    UnitAgrees(x * 10.0);
  }

  lemma {:induction false} SmallAgree(x: real)
    requires 0.0 < x < 1.0 && FitsIn(Default, RoundSmall(Pinned, x))
    ensures RoundSmall(Default, x) == RoundSmall(Pinned, x)
    decreases (1.0 / x).Floor
  {
    if x * 10.0 >= 1.0 {
      SmallTopAgrees(x);
    } else {
      var r := RoundSmall(Pinned, x * 10.0);
      ReciprocalShrinks(x);
      FitsTimesTen(Default, r / 10.0);
      TenTimesTenth(r);
      SmallAgree(x * 10.0);
    }
  }

  /** The two contexts round a number alike exactly when its 34-digit rounding has at most 28 digits. */
  lemma ContextsAgreeIff(x: real)
    requires x >= 0.0
    ensures RoundIn(Default, x) == Round(x) <==> FitsIn(Default, Round(x))
  {
    RoundFits(Default, x);
    RoundFits(Pinned, x);
    if FitsIn(Default, Round(x)) {
      if x >= 1.0 {
        LargeAgree(x);
      } else if x > 0.0 {
        SmallAgree(x);
      }
    }
  }
}
