/** Whole unrolls on the ledger: the induction the program's loop only mentions. Every
    withdrawal covers the repayment of the next step, whatever the rounding, so a run can
    only fail for want of collateral or debt, and ends with the wallet known exactly. */
module UnrollRun {
  import opened Wad
  import opened PortRate
  import opened Ledger
  import opened Unroll
  import opened Pool

  /** The steps with leverage k, k + 1, ..., n - 1. */
  function UnrollFrom(a: Accounts, rate: Rate, percent: nat, n: nat, k: nat, u: nat): Result<Accounts>
    requires k <= n
    decreases n - k
  {
    if k == n then Ok(a)
    else
      var next :- UnrollStep(a, rate, percent, n, k, u);
      UnrollFrom(next, rate, percent, n, k + 1, u)
  }

  lemma UnrollFromStep(a: Accounts, rate: Rate, percent: nat, n: nat, k: nat, u: nat, next: Accounts)
    requires k < n && UnrollStep(a, rate, percent, n, k, u) == Ok(next)
    ensures UnrollFrom(a, rate, percent, n, k, u) == UnrollFrom(next, rate, percent, n, k + 1, u)
    ensures k + 1 == n ==> UnrollFrom(a, rate, percent, n, k, u) == Ok(next)
  {
  }

  /** The position left after unrolling levels 1..m without the wallet. */
  predicate Covers(a: Accounts, rate: Rate, percent: nat, u: nat, withdrawals: nat, repayments: nat) {
    Withdrawn(rate, percent, u, withdrawals) <= a.collateral && Repaid(rate, percent, u, repayments) <= a.debt
  }

  lemma FitsBelow(rate: Rate, percent: nat, u: nat, m: nat, n: nat)
    requires m <= n && Fits(rate, percent, u, n)
    ensures Fits(rate, percent, u, m)
  {
  }

  /** A step given its amounts: what it needs and what it leaves. */
  lemma StepWith(a: Accounts, rate: Rate, percent: nat, n: nat, k: nat, u: nat, repay: nat, w: nat)
    requires k < n && AmountsAfter(rate, percent, u, n - k) == Ok(Amounts(repay, w))
    requires k == 0 || repay <= a.poolLiquidity
    ensures var r := UnrollStep(a, rate, percent, n, k, u);
      && (r.Ok? <==> w <= a.collateral && (k == 0 || repay <= a.debt))
      && (r.Ok? ==> r.value == a.(collateral := a.collateral - w,
                                  debt := if k == 0 then a.debt else a.debt - repay,
                                  poolLiquidity := (if k == 0 then a.poolLiquidity else a.poolLiquidity - repay)
                                                   + CollateralToLiquidity(rate, w)))
  {
  }

  /** One step after the first, from a wallet that covers its repayment. */
  lemma LaterStep(a: Accounts, rate: Rate, percent: nat, n: nat, k: nat, u: nat)
    requires 1 <= k < n && Fits(rate, percent, u, n)
    requires Level(rate, percent, u, n - k) <= a.poolLiquidity
    ensures var below := Level(rate, percent, u, n - k - 1);
      var r := UnrollStep(a, rate, percent, n, k, u);
      && (r.Ok? <==> Withdrawal(rate, below) <= a.collateral && Level(rate, percent, u, n - k) <= a.debt)
      && (r.Ok? ==> r.value == a.(collateral := a.collateral - Withdrawal(rate, below),
                                  debt := a.debt - Level(rate, percent, u, n - k),
                                  poolLiquidity := a.poolLiquidity - Level(rate, percent, u, n - k)
                                                   + Freed(rate, below)))
  {
    FitsBelow(rate, percent, u, n - k, n);
    AmountsAre(rate, percent, u, n - k);
    var below := Level(rate, percent, u, n - k - 1);
    StepWith(a, rate, percent, n, k, u, Level(rate, percent, u, n - k), Withdrawal(rate, below));
  }

  lemma FirstStep(a: Accounts, rate: Rate, percent: nat, n: nat, u: nat)
    requires 1 <= n
    ensures var below := Level(rate, percent, u, n - 1);
      var r := UnrollStep(a, rate, percent, n, 0, u);
      && (r.Ok? <==> Fits(rate, percent, u, n) && Withdrawal(rate, below) <= a.collateral)
      && (r.Ok? ==> r.value == a.(collateral := a.collateral - Withdrawal(rate, below),
                                  poolLiquidity := a.poolLiquidity + Freed(rate, below)))
  {
    AmountsAre(rate, percent, u, n);
    if Fits(rate, percent, u, n) {
      var below := Level(rate, percent, u, n - 1);
      StepWith(a, rate, percent, n, 0, u, Level(rate, percent, u, n), Withdrawal(rate, below));
    }
  }

  lemma {:induction false} TotalsGrow(rate: Rate, percent: nat, u: nat, m: nat, n: nat)
    requires m <= n
    ensures Withdrawn(rate, percent, u, m) <= Withdrawn(rate, percent, u, n)
    ensures Repaid(rate, percent, u, m) <= Repaid(rate, percent, u, n)
  {
    if m == n {
    } else {
      TotalsGrow(rate, percent, u, m, n - 1);
    }
  }

  /** From step k on: success is a matter of the position alone, and the wallet ends with
      what it held above the next repayment, plus the target, plus the rounding gained. */
  lemma {:induction false} LaterSteps(a: Accounts, rate: Rate, percent: nat, n: nat, k: nat, u: nat)
    requires 1 <= k <= n && Fits(rate, percent, u, n)
    requires Level(rate, percent, u, n - k) <= a.poolLiquidity
    ensures UnrollFrom(a, rate, percent, n, k, u).Ok? <==> Covers(a, rate, percent, u, n - k, n - k)
    ensures UnrollFrom(a, rate, percent, n, k, u).Ok? ==>
      UnrollFrom(a, rate, percent, n, k, u).value
      == a.(collateral := a.collateral - Withdrawn(rate, percent, u, n - k),
            debt := a.debt - Repaid(rate, percent, u, n - k),
            poolLiquidity := a.poolLiquidity - Level(rate, percent, u, n - k) + u + Slack(rate, percent, u, n - k))
    decreases n - k
  {
    if k == n {
    } else {
      LaterStep(a, rate, percent, n, k, u);
      var r := UnrollStep(a, rate, percent, n, k, u);
      if r.Ok? {
        assert r.value.poolLiquidity == a.poolLiquidity - Level(rate, percent, u, n - k)
          + Level(rate, percent, u, n - k - 1) + Excess(rate, Level(rate, percent, u, n - k - 1));
        LaterSteps(r.value, rate, percent, n, k + 1, u);
      }
    }
  }

  /** The accounts after a whole unroll of u over n steps. */
  function Unrolled(a: Accounts, rate: Rate, percent: nat, n: nat, u: nat): Accounts
    requires 1 <= n && Covers(a, rate, percent, u, n, n - 1)
  {
    a.(collateral := a.collateral - Withdrawn(rate, percent, u, n),
       debt := a.debt - Repaid(rate, percent, u, n - 1),
       poolLiquidity := a.poolLiquidity + u + Slack(rate, percent, u, n))
  }

  /** Unroll solvency. Whatever the wallet holds, an n-step unroll succeeds if and only if
      its amounts fit u64 and the position covers the total withdrawn and repaid; the
      wallet then ends exactly u plus the gained rounding higher, which is at most one
      collateral unit's worth per step. No step ever fails for want of liquidity. */
  lemma UnrollSucceedsIff(a: Accounts, rate: Rate, percent: nat, n: nat, u: nat)
    requires 1 <= n
    ensures UnrollFrom(a, rate, percent, n, 0, u).Ok?
       <==> Fits(rate, percent, u, n) && Covers(a, rate, percent, u, n, n - 1)
    ensures UnrollFrom(a, rate, percent, n, 0, u).Ok? ==>
      UnrollFrom(a, rate, percent, n, 0, u).value == Unrolled(a, rate, percent, n, u)
    ensures Slack(rate, percent, u, n) <= n * (WAD / rate)
  {
    SlackBound(rate, percent, u, n);
    FirstStep(a, rate, percent, n, u);
    var r := UnrollStep(a, rate, percent, n, 0, u);
    if r.Ok? {
      assert r.value.poolLiquidity == a.poolLiquidity + Level(rate, percent, u, n - 1)
        + Excess(rate, Level(rate, percent, u, n - 1));
      LaterSteps(r.value, rate, percent, n, 1, u);
    } else {
      TotalsGrow(rate, percent, u, n - 1, n);
    }
  }

  /** The accounts after the first k steps. */
  function UnrollTo(a: Accounts, rate: Rate, percent: nat, n: nat, k: nat, u: nat): Result<Accounts>
    requires k <= n
  {
    if k == 0 then Ok(a)
    else
      var before :- UnrollTo(a, rate, percent, n, k - 1, u);
      UnrollStep(before, rate, percent, n, k - 1, u)
  }

  /** Health of one step: every step after the first lowers the strain (strictly, for a
      positive percentage); the first raises it by exactly the value it withdraws. */
  lemma StepHealth(a: Accounts, rate: Rate, percent: nat, n: nat, k: nat, u: nat)
    requires k < n && UnrollStep(a, rate, percent, n, k, u).Ok?
    ensures var b := UnrollStep(a, rate, percent, n, k, u).value;
      && (1 <= k ==> Strain(b, rate, percent) <= Strain(a, rate, percent))
      && (1 <= k && 0 < percent ==> Strain(b, rate, percent) < Strain(a, rate, percent))
      && (k == 0 ==> Strain(b, rate, percent) == Strain(a, rate, percent)
                      + percent * (Withdrawal(rate, Level(rate, percent, u, n - 1)) * WAD))
  {
    var below := Level(rate, percent, u, n - k - 1);
    var w := Withdrawal(rate, below);
    var repay := if k == 0 then 0 else Level(rate, percent, u, n - k);
    RepaymentCoversWithdrawal(rate, percent, below);
    StrainAfter(a.debt, repay, a.collateral, w, rate, percent);
  }

  lemma StrainAfter(debt: nat, repay: nat, collateral: nat, w: nat, rate: Rate, percent: nat)
    requires repay <= debt && w <= collateral
    ensures 100 * (debt - repay) * rate - percent * ((collateral - w) * WAD)
         == 100 * debt * rate - percent * (collateral * WAD) - 100 * repay * rate + percent * (w * WAD)
  {
    assert 100 * (debt - repay) * rate == 100 * debt * rate - 100 * repay * rate;
    assert percent * (collateral * WAD - w * WAD) == percent * (collateral * WAD) - percent * (w * WAD);
  }

  /** Health of the run: after any number of steps the strain is at most what it was, plus
      the value of the first withdrawal. A position with that much room to spare therefore
      stays within the percentage throughout. */
  lemma {:induction false} RunHealth(a: Accounts, rate: Rate, percent: nat, n: nat, k: nat, u: nat)
    requires 1 <= k <= n && UnrollTo(a, rate, percent, n, k, u).Ok?
    ensures Strain(UnrollTo(a, rate, percent, n, k, u).value, rate, percent)
         <= Strain(a, rate, percent) + percent * (Withdrawal(rate, Level(rate, percent, u, n - 1)) * WAD)
  {
    var before := UnrollTo(a, rate, percent, n, k - 1, u).value;
    StepHealth(before, rate, percent, n, k - 1, u);
    if k == 1 {
    } else {
      RunHealth(a, rate, percent, n, k - 1, u);
    }
  }

  lemma StepPosition(a: Accounts, rate: Rate, percent: nat, n: nat, k: nat, u: nat)
    requires k < n && UnrollStep(a, rate, percent, n, k, u).Ok?
    ensures var b := UnrollStep(a, rate, percent, n, k, u).value;
      && b.collateral == a.collateral - Withdrawal(rate, Level(rate, percent, u, n - k - 1))
      && b.debt == a.debt - (if k == 0 then 0 else Level(rate, percent, u, n - k))
  {
  }

  /** The position after k steps, known before any of them. */
  lemma {:induction false} CollateralAfter(a: Accounts, rate: Rate, percent: nat, n: nat, k: nat, u: nat)
    requires k <= n && UnrollTo(a, rate, percent, n, k, u).Ok?
    ensures UnrollTo(a, rate, percent, n, k, u).value.collateral
         == a.collateral - (Withdrawn(rate, percent, u, n) - Withdrawn(rate, percent, u, n - k))
  {
    if k == 0 {
    } else {
      CollateralAfter(a, rate, percent, n, k - 1, u);
      StepPosition(UnrollTo(a, rate, percent, n, k - 1, u).value, rate, percent, n, k - 1, u);
    }
  }

  lemma {:induction false} DebtAfter(a: Accounts, rate: Rate, percent: nat, n: nat, k: nat, u: nat)
    requires 1 <= k <= n && UnrollTo(a, rate, percent, n, k, u).Ok?
    ensures UnrollTo(a, rate, percent, n, k, u).value.debt
         == a.debt - (Repaid(rate, percent, u, n - 1) - Repaid(rate, percent, u, n - k))
  {
    if k == 1 {
      NextDebt(a, rate, percent, n, 1, u);
      assert UnrollTo(a, rate, percent, n, 0, u) == Ok(a);
    } else {
      DebtAfter(a, rate, percent, n, k - 1, u);
      NextDebt(a, rate, percent, n, k, u);
    }
  }

  lemma NextDebt(a: Accounts, rate: Rate, percent: nat, n: nat, k: nat, u: nat)
    requires 1 <= k <= n && UnrollTo(a, rate, percent, n, k, u).Ok?
    ensures UnrollTo(a, rate, percent, n, k - 1, u).Ok?
    ensures UnrollTo(a, rate, percent, n, k, u).value.debt
         == UnrollTo(a, rate, percent, n, k - 1, u).value.debt
            - (if k == 1 then 0 else Repaid(rate, percent, u, n - k + 1) - Repaid(rate, percent, u, n - k))
  {
    StepPosition(UnrollTo(a, rate, percent, n, k - 1, u).value, rate, percent, n, k - 1, u);
  }

  /** Exactly when the position is within `ratio`% after k steps, on figures known before
      the run: they withdraw the k highest of the n levels, and all but the first repay. */
  lemma WithinRatioIff(a: Accounts, rate: Rate, percent: nat, ratio: nat, n: nat, k: nat, u: nat)
    requires 1 <= k <= n && UnrollTo(a, rate, percent, n, k, u).Ok?
    ensures var withdrawn := Withdrawn(rate, percent, u, n) - Withdrawn(rate, percent, u, n - k);
      var repaid := Repaid(rate, percent, u, n - 1) - Repaid(rate, percent, u, n - k);
      Strain(UnrollTo(a, rate, percent, n, k, u).value, rate, ratio) <= 0
      <==> Strain(a, rate, ratio) + ratio * (withdrawn * WAD) <= 100 * repaid * rate
  {
    CollateralAfter(a, rate, percent, n, k, u);
    DebtAfter(a, rate, percent, n, k, u);
    RatioMoved(a, UnrollTo(a, rate, percent, n, k, u).value, rate, ratio,
               Withdrawn(rate, percent, u, n) - Withdrawn(rate, percent, u, n - k),
               Repaid(rate, percent, u, n - 1) - Repaid(rate, percent, u, n - k));
  }

  lemma RatioMoved(a: Accounts, b: Accounts, rate: Rate, ratio: nat, withdrawn: int, repaid: int)
    requires b.collateral == a.collateral - withdrawn && b.debt == a.debt - repaid
    ensures Strain(b, rate, ratio) <= 0
       <==> Strain(a, rate, ratio) + ratio * (withdrawn * WAD) <= 100 * repaid * rate
  {
    StrainMoved(a.debt, repaid, a.collateral, withdrawn, WAD, rate, ratio);
  }

  lemma StrainMoved(debt: int, repaid: int, collateral: int, withdrawn: int, scale: nat, rate: Rate, ratio: nat)
    ensures 100 * (debt - repaid) * rate - ratio * ((collateral - withdrawn) * scale)
         == 100 * debt * rate - ratio * (collateral * scale) + ratio * (withdrawn * scale) - 100 * repaid * rate
  {
    assert 100 * (debt - repaid) * rate == 100 * debt * rate - 100 * repaid * rate;
    assert ratio * ((collateral - withdrawn) * scale) == ratio * (collateral * scale) - ratio * (withdrawn * scale);
  }

  /** What the reserve percentage buys: a position within `percent`% stays within
      percent + reserve (the market's loan-to-value) after step k, as long as the reserve
      percentage of the collateral that k steps leave exceeds `percent`% of the first
      withdrawal. All figures are known before the run. */
  lemma ReserveCoversFirstWithdrawal(a: Accounts, rate: Rate, percent: nat, reserve: nat, n: nat, k: nat, u: nat)
    requires 1 <= k <= n && UnrollTo(a, rate, percent, n, k, u).Ok?
    requires Strain(a, rate, percent) <= 0
    requires percent * Withdrawal(rate, Level(rate, percent, u, n - 1))
          <= reserve * (a.collateral - (Withdrawn(rate, percent, u, n) - Withdrawn(rate, percent, u, n - k)))
    ensures Strain(UnrollTo(a, rate, percent, n, k, u).value, rate, percent + reserve) <= 0
  {
    RunHealth(a, rate, percent, n, k, u);
    CollateralAfter(a, rate, percent, n, k, u);
    ReserveEnough(a, UnrollTo(a, rate, percent, n, k, u).value, rate, percent, reserve,
                  Withdrawal(rate, Level(rate, percent, u, n - 1)));
  }

  lemma ReserveEnough(a: Accounts, b: Accounts, rate: Rate, percent: nat, reserve: nat, w: nat)
    requires Strain(a, rate, percent) <= 0
    requires Strain(b, rate, percent) <= Strain(a, rate, percent) + percent * (w * WAD)
    requires percent * w <= reserve * b.collateral
    ensures Strain(b, rate, percent + reserve) <= 0
  {
    WithinBoth(100 * b.debt * rate, b.collateral, WAD, percent, reserve, w);
  }

  lemma WithinBoth(debt: int, c: nat, scale: nat, percent: nat, reserve: nat, w: nat)
    requires debt - percent * (c * scale) <= percent * (w * scale)
    requires percent * w <= reserve * c
    ensures debt - (percent + reserve) * (c * scale) <= 0
  {
    MulMonotone(percent * w, reserve * c, scale);
    assert percent * w * scale == percent * (w * scale);
    assert reserve * c * scale == reserve * (c * scale);
    assert (percent + reserve) * (c * scale) == percent * (c * scale) + reserve * (c * scale);
  }

  /** What one step costs: the exact assets fall by less than one unit of liquidity. */
  lemma StepLoss(a: Accounts, rate: Rate, percent: nat, n: nat, k: nat, u: nat)
    requires k < n && UnrollStep(a, rate, percent, n, k, u).Ok?
    ensures 0 <= Assets(a, rate) - Assets(UnrollStep(a, rate, percent, n, k, u).value, rate) < rate
  {
    var w := Withdrawal(rate, Level(rate, percent, u, n - k - 1));
    LiquidityOfCollateral(rate, w);
    var repay := if k == 0 then 0 else Level(rate, percent, u, n - k);
    AssetsAfter(a.collateral, w, a.debt, repay, a.poolLiquidity, CollateralToLiquidity(rate, w), rate);
  }

  lemma AssetsAfter(collateral: nat, w: nat, debt: nat, repay: nat, pool: nat, freed: nat, rate: Rate)
    requires w <= collateral && repay <= debt && repay <= pool
    ensures (collateral - w) * WAD - (debt - repay) * rate + (pool - repay + freed) * rate
         == collateral * WAD - debt * rate + pool * rate - w * WAD + freed * rate
  {
    assert (debt - repay) * rate == debt * rate - repay * rate;
    assert (pool - repay + freed) * rate == pool * rate - repay * rate + freed * rate;
  }

  /** Conservation over a run: n steps lose between 0 and n units, exclusive. */
  lemma {:induction false} RunLoss(a: Accounts, rate: Rate, percent: nat, n: nat, k: nat, u: nat)
    requires k <= n && UnrollFrom(a, rate, percent, n, k, u).Ok?
    ensures 0 <= Assets(a, rate) - Assets(UnrollFrom(a, rate, percent, n, k, u).value, rate)
    ensures k < n ==>
      Assets(a, rate) - Assets(UnrollFrom(a, rate, percent, n, k, u).value, rate) < (n - k) * rate
    decreases n - k
  {
    if k == n {
    } else {
      StepLoss(a, rate, percent, n, k, u);
      RunLoss(UnrollStep(a, rate, percent, n, k, u).value, rate, percent, n, k + 1, u);
      assert (n - k) * rate == (n - k - 1) * rate + rate;
    }
  }
}
