/** The lending market's exchange rate between liquidity and collateral.

    The market is another program: this module states what is assumed of it. A rate is a
    positive scaled number of collateral units per unit of liquidity; both conversions
    truncate; a position is worth its collateral's value less its debt. */
module PortRate {
  import opened Wad

  type Rate = r: nat | 0 < r witness 1

  function LiquidityToCollateral(rate: Rate, liquidity: nat): nat {
    liquidity * rate / WAD
  }

  function CollateralToLiquidity(rate: Rate, collateral: nat): nat {
    collateral * WAD / rate
  }

  /** The scaled worth of a position; it fails when the debt exceeds the collateral. */
  function PositionValue(rate: Rate, collateral: nat, debt: nat): Result<nat> {
    DecimalSub(collateral * WAD * WAD / rate, debt * WAD)
  }

  /** A position has a worth if and only if the debt is within the collateral's exact value,
      and the worth is the exact one rounded down by less than a scaled unit. */
  lemma PositionValueIs(rate: Rate, collateral: nat, debt: nat)
    ensures PositionValue(rate, collateral, debt).Ok? <==> debt * rate <= collateral * WAD
    ensures PositionValue(rate, collateral, debt).Err? ==> PositionValue(rate, collateral, debt) == Err(MathFailure)
    ensures PositionValue(rate, collateral, debt).Ok? ==>
      var worth := PositionValue(rate, collateral, debt).value;
      worth * rate <= (collateral * WAD - debt * rate) * WAD < worth * rate + rate
  {
    DivBounds(collateral * WAD * WAD, rate);
    WorthExact(collateral * WAD, debt, WAD, rate, collateral * WAD * WAD / rate);
  }

  lemma WorthExact(x: nat, debt: nat, w: nat, rate: Rate, value: nat)
    requires 0 < w && value * rate <= x * w < value * rate + rate
    ensures debt * w <= value <==> debt * rate <= x
    ensures (value - debt * w) * rate <= (x - debt * rate) * w < (value - debt * w) * rate + rate
  {
    assert (value - debt * w) * rate == value * rate - debt * rate * w;
    assert (x - debt * rate) * w == x * w - debt * rate * w;
    if debt * rate <= x {
      MulMonotone(debt * rate, x, w);
      if value + 1 <= debt * w {
        MulMonotone(value + 1, debt * w, rate);
      }
    } else {
      MulMonotone(x + 1, debt * rate, w);
      if debt * w <= value {
        MulMonotone(debt * w, value, rate);
      }
    }
  }

  /** Withdrawing one unit of collateral more than `u` converts to always frees at least
      `u`, and never more than the worth of that one unit beyond it. */
  lemma WithdrawalCovers(rate: Rate, u: nat)
    ensures u
         <= CollateralToLiquidity(rate, LiquidityToCollateral(rate, u) + 1)
         <= u + WAD / rate
  {
    var w := LiquidityToCollateral(rate, u) + 1;
    DivBounds(u * rate, WAD);
    assert u * rate < w * WAD <= u * rate + WAD;
    DivAtLeast(u, w * WAD, rate);
    DivBounds(WAD, rate);
    DivAtMost(u + WAD / rate, w * WAD, rate);
  }

  /** The conversion back to liquidity is the exact value rounded down by less than a unit. */
  lemma LiquidityOfCollateral(rate: Rate, w: nat)
    ensures CollateralToLiquidity(rate, w) * rate
         <= w * WAD
         < CollateralToLiquidity(rate, w) * rate + rate
  {
    DivBounds(w * WAD, rate);
  }

  /** Depositing loses less than one unit of collateral to rounding. */
  lemma CollateralOfLiquidity(rate: Rate, x: nat)
    ensures LiquidityToCollateral(rate, x) * WAD
         <= x * rate
         < LiquidityToCollateral(rate, x) * WAD + WAD
  {
    DivBounds(x * rate, WAD);
  }

  /** If the exact position (in 1/rate units) grows by at most `gain` units of liquidity,
      so does the rounded value the program reads. */
  lemma ValueRise(rate: Rate, c0: nat, d0: nat, c1: nat, d1: nat, gain: nat)
    requires c1 * WAD - d1 * rate <= c0 * WAD - d0 * rate + gain * rate
    ensures PositionValue(rate, c0, d0).Ok? && PositionValue(rate, c1, d1).Ok? ==>
              PositionValue(rate, c1, d1).value <= PositionValue(rate, c0, d0).value + gain * WAD
  {
    ValueRiseScaled(WAD, rate, c0, d0, c1, d1, gain);
  }

  lemma ValueRiseScaled(w: nat, rate: Rate, c0: nat, d0: nat, c1: nat, d1: nat, gain: nat)
    requires c1 * w - d1 * rate <= c0 * w - d0 * rate + gain * rate
    ensures c1 * w * w / rate - d1 * w <= c0 * w * w / rate - d0 * w + gain * w
  {
    Combine(d1, gain, d0, rate);
    Combine(d1, gain, d0, w);
    QuotientsRise(c0 * w, c1 * w, w, d1 + gain - d0, rate);
  }

  lemma Combine(x: int, y: int, z: int, w: int)
    ensures (x + y - z) * w == x * w + y * w - z * w
  {
  }

  lemma QuotientsRise(x0: nat, x1: nat, w: nat, k: int, rate: Rate)
    requires x1 <= x0 + k * rate
    ensures x1 * w / rate <= x0 * w / rate + k * w
  {
    DivBounds(x0 * w, rate);
    DivBounds(x1 * w, rate);
    FloorsRise(x0, x1, w, k, rate, x0 * w / rate, x1 * w / rate);
  }

  lemma FloorsRise(x0: nat, x1: nat, w: nat, k: int, rate: Rate, v0: nat, v1: nat)
    requires x1 <= x0 + k * rate
    requires x0 * w < v0 * rate + rate && v1 * rate <= x1 * w
    ensures v1 <= v0 + k * w
  {
    MulMonotone(x1, x0 + k * rate, w);
    assert (x0 + k * rate) * w == x0 * w + k * w * rate;
    if v0 + k * w + 1 <= v1 {
      MulMonotone(v0 + k * w + 1, v1, rate);
    }
  }
}
