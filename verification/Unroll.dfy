/** The backward recurrence that decides how much to repay and to withdraw at each step of
    an unroll, and the bounds that keep every later step funded.

    Level 0 is the liquidity still missing for the payout; level j is what must be repaid
    so that level j - 1 can be freed. The step with `leverage == k` of an n-step run acts
    on level n - k. */
module Unroll {
  import opened Wad
  import opened PortRate

  /** Collateral withdrawn to free `u`. */
  function Withdrawal(rate: Rate, u: nat): nat {
    LiquidityToCollateral(rate, u) + 1
  }

  /** Liquidity that withdrawal yields when it is redeemed at the market. */
  function Freed(rate: Rate, u: nat): nat {
    CollateralToLiquidity(rate, Withdrawal(rate, u))
  }

  /** The scaled ceiling of `percent`% of `x`. */
  function Repayment(percent: nat, x: nat): nat {
    (percent * PERCENT * x + WAD - 1) / WAD
  }

  function Level(rate: Rate, percent: nat, u: nat, j: nat): nat {
    if j == 0 then u
    else Repayment(percent, Freed(rate, Level(rate, percent, u, j - 1)) + 1)
  }

  /** One turn of the loop, with the checked conversions it makes in order. */
  function Turn(rate: Rate, percent: nat, u: nat): Outcome {
    if LiquidityToCollateral(rate, u) >= U64_LIMIT then Fail(MathFailure)
    else if Withdrawal(rate, u) >= U64_LIMIT then Fail(MathOverflow)
    else if Freed(rate, u) >= U64_LIMIT then Fail(MathFailure)
    else if Freed(rate, u) + 1 >= U64_LIMIT then Fail(MathOverflow)
    else Require(Repayment(percent, Freed(rate, u) + 1) < U64_LIMIT, MathFailure)
  }

  /** Whether a turn above `u` stays inside u64: its withdrawal, the freed amount with the
      unit on top, and its repayment. */
  predicate StaysInside(rate: Rate, percent: nat, u: nat) {
    && Withdrawal(rate, u) < 0x1_0000_0000_0000_0000
    && Freed(rate, u) + 1 < 0x1_0000_0000_0000_0000
    && Repayment(percent, Freed(rate, u) + 1) < 0x1_0000_0000_0000_0000
  }

  /** Whether the first m turns of the loop do. */
  predicate Fits(rate: Rate, percent: nat, u: nat, m: nat) {
    forall j | 0 <= j < m :: StaysInside(rate, percent, Level(rate, percent, u, j))
  }

  /** A conversion that leaves u64 is a failure of the maths library, an addition that does
      an overflow of the program, in the order of the loop. */
  lemma TurnErrors(rate: Rate, percent: nat, u: nat)
    ensures Turn(rate, percent, u).Pass? <==> StaysInside(rate, percent, u)
    ensures Turn(rate, percent, u) == Fail(MathOverflow) <==>
            (Withdrawal(rate, u) == 0x1_0000_0000_0000_0000
             || (Withdrawal(rate, u) < 0x1_0000_0000_0000_0000 && Freed(rate, u) + 1 == 0x1_0000_0000_0000_0000))
    ensures Turn(rate, percent, u).Fail? ==> Turn(rate, percent, u).error in {MathFailure, MathOverflow}
  {
  }

  /** What one step of an unroll is told to do. */
  datatype Amounts = Amounts(repay: nat, withdraw: nat)

  /** The outcome of m turns: level m and the withdrawal that level m pays for, or the
      error of the first turn that leaves u64. */
  function AmountsAfter(rate: Rate, percent: nat, u: nat, m: nat): (r: Result<Amounts>)
    ensures r.Ok? <==> Fits(rate, percent, u, m)
  {
    if m == 0 then
      Ok(Amounts(0, 0))
    else
      var _ :- AmountsAfter(rate, percent, u, m - 1);
      TurnErrors(rate, percent, Level(rate, percent, u, m - 1));
      :- Turn(rate, percent, Level(rate, percent, u, m - 1));
      Ok(Amounts(Level(rate, percent, u, m), Withdrawal(rate, Level(rate, percent, u, m - 1))))
  }

  lemma AmountsAre(rate: Rate, percent: nat, u: nat, m: nat)
    requires 0 < m
    ensures AmountsAfter(rate, percent, u, m).Ok? ==>
      AmountsAfter(rate, percent, u, m).value
      == Amounts(Level(rate, percent, u, m), Withdrawal(rate, Level(rate, percent, u, m - 1)))
  {
  }

  /** The loop of an unroll: m turns from `unroll`, each reusing the last repayment. */
  method ComputeAmounts(rate: Rate, percent: nat, unroll: nat, m: nat) returns (r: Result<Amounts>)
    ensures r == AmountsAfter(rate, percent, unroll, m)
  {
    var repayAmount: nat, withdrawAmount: nat, unrollAmount: nat := 0, 0, unroll;
    for turn := 0 to m
      invariant AmountsAfter(rate, percent, unroll, turn) == Ok(Amounts(repayAmount, withdrawAmount))
      invariant unrollAmount == Level(rate, percent, unroll, turn)
    {
      ghost var result := AmountsAfter(rate, percent, unroll, turn + 1);
      assert Turn(rate, percent, unrollAmount).Fail? ==> result == Err(Turn(rate, percent, unrollAmount).error);
      if result.Err? {
        FirstErrorStays(rate, percent, unroll, turn + 1, m);
      }
      var collateral := LiquidityToCollateral(rate, unrollAmount);
      if U64_LIMIT <= collateral {
        return Err(MathFailure);
      }
      withdrawAmount := collateral + 1;
      if U64_LIMIT <= withdrawAmount {
        return Err(MathOverflow);
      }
      var liquidity := CollateralToLiquidity(rate, withdrawAmount);
      if U64_LIMIT <= liquidity {
        return Err(MathFailure);
      }
      var availableLiquidity := liquidity + 1;
      if U64_LIMIT <= availableLiquidity {
        return Err(MathOverflow);
      }
      repayAmount := (percent * PERCENT * availableLiquidity + WAD - 1) / WAD;
      if U64_LIMIT <= repayAmount {
        return Err(MathFailure);
      }
      unrollAmount := repayAmount;
    }
    return Ok(Amounts(repayAmount, withdrawAmount));
  }

  lemma {:induction false} FirstErrorStays(rate: Rate, percent: nat, u: nat, j: nat, m: nat)
    requires j <= m && AmountsAfter(rate, percent, u, j).Err?
    ensures AmountsAfter(rate, percent, u, m) == AmountsAfter(rate, percent, u, j)
  {
    if j == m {
    } else {
      FirstErrorStays(rate, percent, u, j, m - 1);
    }
  }

  /** The repayment is the exact ceiling of the percentage. */
  lemma RepaymentIsCeiling(percent: nat, x: nat)
    ensures percent * x <= 100 * Repayment(percent, x) < percent * x + 100
  {
    var y := percent * x;
    assert percent * PERCENT * x == y * PERCENT by {
      assert percent * PERCENT * x == percent * x * PERCENT;
    }
    assert Repayment(percent, x) == (y * PERCENT + WAD - 1) / WAD;
  }

  /** The amounts of one turn, exactly and on the numbers alone: the least withdrawal worth
      more than the level below, what it is redeemed for, and the least repayment of
      `percent`% of one unit more than that. */
  lemma LevelExact(rate: Rate, percent: nat, u: nat, j: nat)
    ensures var below := Level(rate, percent, u, j);
      var w := Withdrawal(rate, below);
      var x := Freed(rate, below);
      && below * rate < w * WAD <= below * rate + WAD
      && x * rate <= w * WAD < x * rate + rate
      && percent * (x + 1) <= 100 * Level(rate, percent, u, j + 1) < percent * (x + 1) + 100
  {
    var below := Level(rate, percent, u, j);
    CollateralOfLiquidity(rate, below);
    LiquidityOfCollateral(rate, Withdrawal(rate, below));
    RepaymentIsCeiling(percent, Freed(rate, below) + 1);
  }

  lemma AtMostWhole(percent: nat, x: nat)
    requires percent <= 100
    ensures Repayment(percent, x) <= x
  {
    RepaymentIsCeiling(percent, x);
    MulMonotone(percent, 100, x);
  }

  /** Levels grow by at most one rounding and one unit each. */
  lemma {:induction false} LevelAtMost(rate: Rate, percent: nat, u: nat, j: nat)
    requires percent <= 100
    ensures Level(rate, percent, u, j) <= u + j * (WAD / rate + 1)
  {
    if j == 0 {
    } else {
      var below := Level(rate, percent, u, j - 1);
      LevelAtMost(rate, percent, u, j - 1);
      WithdrawalCovers(rate, below);
      AtMostWhole(percent, Freed(rate, below) + 1);
      assert j * (WAD / rate + 1) == (j - 1) * (WAD / rate + 1) + (WAD / rate + 1);
    }
  }

  /** Enough for every turn to stay inside u64: the amount and its n roundings fit, and so
      does the collateral they convert to. */
  lemma SmallAmountsFit(rate: Rate, percent: nat, u: nat, n: nat)
    requires percent <= 100
    requires u + n * (WAD / rate + 1) < 0x1_0000_0000_0000_0000
    requires (u + n * (WAD / rate + 1)) * rate / WAD + 1 < 0x1_0000_0000_0000_0000
    ensures AmountsAfter(rate, percent, u, n).Ok?
  {
    forall j | 0 <= j < n
      ensures StaysInside(rate, percent, Level(rate, percent, u, j))
    {
      LevelAtMost(rate, percent, u, j);
      MulMonotone(j + 1, n, WAD / rate + 1);
      assert (j + 1) * (WAD / rate + 1) == j * (WAD / rate + 1) + (WAD / rate + 1);
      SmallTurn(rate, percent, Level(rate, percent, u, j), u + n * (WAD / rate + 1));
    }
  }

  lemma SmallTurn(rate: Rate, percent: nat, below: nat, v: nat)
    requires percent <= 100 && below + (WAD / rate + 1) <= v
    requires v < 0x1_0000_0000_0000_0000 && v * rate / WAD + 1 < 0x1_0000_0000_0000_0000
    ensures StaysInside(rate, percent, below)
  {
    WithdrawalCovers(rate, below);
    QuotientMonotone(below, v, rate, WAD);
    AtMostWhole(percent, Freed(rate, below) + 1);
  }

  lemma QuotientMonotone(x: nat, y: nat, rate: Rate, w: nat)
    requires x <= y && 0 < w
    ensures x * rate / w <= y * rate / w
  {
    MulMonotone(x, y, rate);
    DivBounds(x * rate, w);
    DivAtLeast(x * rate / w, y * rate, w);
  }

  /** Rounding gained at one level over what that level had to free. */
  function Excess(rate: Rate, u: nat): (e: nat)
    ensures e <= WAD / rate
  {
    WithdrawalCovers(rate, u);
    Freed(rate, u) - u
  }

  /** Totals over levels 1..m: rounding gained, collateral withdrawn, liquidity repaid. */
  function Slack(rate: Rate, percent: nat, u: nat, m: nat): nat {
    if m == 0 then 0
    else Slack(rate, percent, u, m - 1) + Excess(rate, Level(rate, percent, u, m - 1))
  }

  function Withdrawn(rate: Rate, percent: nat, u: nat, m: nat): nat {
    if m == 0 then 0
    else Withdrawn(rate, percent, u, m - 1) + Withdrawal(rate, Level(rate, percent, u, m - 1))
  }

  function Repaid(rate: Rate, percent: nat, u: nat, m: nat): nat {
    if m == 0 then 0
    else Repaid(rate, percent, u, m - 1) + Level(rate, percent, u, m)
  }

  /** Precision of the whole recurrence: m levels gain at most m roundings. */
  lemma {:induction false} SlackBound(rate: Rate, percent: nat, u: nat, m: nat)
    ensures Slack(rate, percent, u, m) <= m * (WAD / rate)
  {
    if m == 0 {
    } else {
      SlackBound(rate, percent, u, m - 1);
      assert m * (WAD / rate) == (m - 1) * (WAD / rate) + WAD / rate;
    }
  }

  /** Repaying the level above `u` covers `percent`% of the exact value of the collateral
      withdrawn to free `u`, and more than covers it for a positive percentage. */
  lemma RepaymentCoversWithdrawal(rate: Rate, percent: nat, u: nat)
    ensures percent * (Withdrawal(rate, u) * WAD) <= 100 * Repayment(percent, Freed(rate, u) + 1) * rate
    ensures 0 < percent ==>
      percent * (Withdrawal(rate, u) * WAD) < 100 * Repayment(percent, Freed(rate, u) + 1) * rate
  {
    LiquidityOfCollateral(rate, Withdrawal(rate, u));
    RepaymentIsCeiling(percent, Freed(rate, u) + 1);
    PercentOfLess(percent, Withdrawal(rate, u) * WAD, Freed(rate, u) + 1, rate,
                  100 * Repayment(percent, Freed(rate, u) + 1));
  }

  lemma PercentOfLess(percent: nat, value: nat, x: nat, rate: Rate, repay: nat)
    requires value < x * rate && percent * x <= repay
    ensures percent * value <= repay * rate
    ensures 0 < percent ==> percent * value < repay * rate
  {
    MulMonotone(value + 1, x * rate, percent);
    MulMonotone(percent * x, repay, rate);
    assert percent * (x * rate) == percent * x * rate;
  }
}
