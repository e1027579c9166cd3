/** Whole leverage runs on the ledger: where the forward loop leaves the position. */
module LeverageRun {
  import opened Wad
  import opened PortRate
  import opened Ledger
  import opened Leverage
  import opened Pool

  /** The accounts after the first k of n steps; `fees` are the borrow fees in order. */
  function LeverTo(a: Accounts, rate: Rate, percent: nat, n: nat, k: nat, fees: seq<nat>): Result<Accounts>
    requires k <= n <= |fees|
  {
    if k == 0 then Ok(a)
    else
      var before :- LeverTo(a, rate, percent, n, k - 1, fees);
      LeverageStep(before, rate, percent, n, k - 1, fees[k - 1])
  }

  /** Collateral credited for the deposits of the first k steps. */
  function Collateralized(rate: Rate, percent: nat, a0: nat, k: nat): nat {
    if k == 0 then 0
    else Collateralized(rate, percent, a0, k - 1) + LiquidityToCollateral(rate, Amount(percent, a0, k - 1))
  }

  /** Liquidity borrowed by the first k borrows. */
  function Loans(percent: nat, a0: nat, k: nat): nat {
    if k == 0 then 0 else Loans(percent, a0, k - 1) + Amount(percent, a0, k)
  }

  /** Fees of the first k borrows. */
  function Fees(fees: seq<nat>, k: nat): nat
    requires k <= |fees|
  {
    if k == 0 then 0 else Fees(fees, k - 1) + fees[k - 1]
  }

  /** The accounts after k steps in closed form. Step n - 1 deposits and does not borrow. */
  function Levered(a: Accounts, rate: Rate, percent: nat, n: nat, k: nat, fees: seq<nat>): Accounts
    requires 1 <= n && k <= n <= |fees|
  {
    var a0 := a.poolLiquidity;
    var loans := if k < n then k else n - 1;
    a.(collateral := a.collateral + Collateralized(rate, percent, a0, k),
       debt := a.debt + Loans(percent, a0, loans) + Fees(fees, loans),
       poolLiquidity := if k < n then Amount(percent, a0, k) else 0)
  }

  /** Everything deposited beyond the first amount was borrowed. */
  lemma {:induction false} BorrowedTotal(percent: nat, a0: nat, k: nat)
    ensures Loans(percent, a0, k) == Deposited(percent, a0, k) + Amount(percent, a0, k) - a0
  {
    if k == 0 {
    } else {
      BorrowedTotal(percent, a0, k - 1);
    }
  }

  lemma StepIs(a: Accounts, rate: Rate, percent: nat, n: nat, k: nat, fee: nat)
    requires k < n
    ensures var x := a.poolLiquidity;
      var b := a.(collateral := a.collateral + LiquidityToCollateral(rate, x), poolLiquidity := 0);
      var loan := Borrowed(percent, x);
      LeverageStep(a, rate, percent, n, k, fee)
      == Ok(if k + 1 < n then b.(debt := a.debt + loan + fee, poolLiquidity := loan) else b)
  {
  }

  /** The fee a step is charged: the last step does not borrow. */
  function Charged(n: nat, k: nat, fee: nat): nat {
    if k + 1 < n then fee else 0
  }

  /** A leverage run never fails, and leaves the accounts exactly so. In particular the
      wallet ends empty, and the debt is what was borrowed plus the fees. */
  lemma {:induction false} LeverageRunIs(a: Accounts, rate: Rate, percent: nat, n: nat, k: nat, fees: seq<nat>)
    requires 1 <= n && k <= n <= |fees|
    ensures LeverTo(a, rate, percent, n, k, fees) == Ok(Levered(a, rate, percent, n, k, fees))
  {
    if k == 0 {
    } else {
      LeverageRunIs(a, rate, percent, n, k - 1, fees);
      var before := Levered(a, rate, percent, n, k - 1, fees);
      LeveredStep(a, rate, percent, n, k, fees, before);
    }
  }

  lemma LeveredStep(a: Accounts, rate: Rate, percent: nat, n: nat, k: nat, fees: seq<nat>, before: Accounts)
    requires 1 <= k <= n <= |fees|
    requires before == Levered(a, rate, percent, n, k - 1, fees)
    ensures LeverageStep(before, rate, percent, n, k - 1, fees[k - 1]) == Ok(Levered(a, rate, percent, n, k, fees))
  {
    StepIs(before, rate, percent, n, k - 1, fees[k - 1]);
    assert k < n ==> Amount(percent, a.poolLiquidity, k) == Borrowed(percent, before.poolLiquidity);
  }

  /** The collateral credited is worth the deposits, less under one collateral unit each. */
  lemma {:induction false} CollateralizedBound(rate: Rate, percent: nat, a0: nat, k: nat)
    ensures Collateralized(rate, percent, a0, k) * WAD <= Deposited(percent, a0, k) * rate
    ensures Deposited(percent, a0, k) * rate <= (Collateralized(rate, percent, a0, k) + k) * WAD
  {
    if k == 0 {
    } else {
      CollateralizedBound(rate, percent, a0, k - 1);
      var x := Amount(percent, a0, k - 1);
      CollateralOfLiquidity(rate, x);
      OneMoreDeposit(Collateralized(rate, percent, a0, k - 1), LiquidityToCollateral(rate, x),
                     Deposited(percent, a0, k - 1), x, k, rate, WAD);
    }
  }

  lemma OneMoreDeposit(c: nat, gained: nat, deposited: nat, x: nat, k: nat, rate: Rate, scale: nat)
    requires 1 <= k && c * scale <= deposited * rate <= (c + (k - 1)) * scale
    requires gained * scale <= x * rate < gained * scale + scale
    ensures (c + gained) * scale <= (deposited + x) * rate <= (c + gained + k) * scale
  {
    assert (deposited + x) * rate == deposited * rate + x * rate;
    assert (c + gained + k) * scale == (c + (k - 1)) * scale + gained * scale + scale;
  }

  /** Equity of one step: the exact assets lose the borrow fee and less than one unit of
      collateral to rounding. */
  lemma StepConserves(a: Accounts, rate: Rate, percent: nat, n: nat, k: nat, fee: nat)
    requires k < n
    ensures var b := LeverageStep(a, rate, percent, n, k, fee).value;
      0 <= Assets(a, rate) - Assets(b, rate) - Charged(n, k, fee) * rate < WAD
  {
    var x := a.poolLiquidity;
    StepIs(a, rate, percent, n, k, fee);
    CollateralOfLiquidity(rate, x);
    var loan := if k + 1 < n then Borrowed(percent, x) else 0;
    AssetsAfterStep(a.collateral, LiquidityToCollateral(rate, x), WAD, a.debt, loan, Charged(n, k, fee), x, rate);
  }

  lemma AssetsAfterStep(c: nat, gained: nat, scale: nat, d: nat, loan: nat, fee: nat, x: nat, rate: Rate)
    ensures (c + gained) * scale - (d + loan + fee) * rate + loan * rate
         == c * scale - d * rate + x * rate - (x * rate - gained * scale) - fee * rate
  {
    assert (d + loan + fee) * rate == d * rate + loan * rate + fee * rate;
  }

  /** The fees charged by the first k steps of an n-step run. */
  function ChargedTo(fees: seq<nat>, n: nat, k: nat): nat
    requires 1 <= n && k <= n <= |fees|
  {
    Fees(fees, if k < n then k else n - 1)
  }

  lemma ChargedNext(fees: seq<nat>, n: nat, k: nat, rate: Rate)
    requires 1 <= k <= n <= |fees|
    ensures ChargedTo(fees, n, k) * rate == ChargedTo(fees, n, k - 1) * rate + Charged(n, k - 1, fees[k - 1]) * rate
  {
    assert ChargedTo(fees, n, k) == ChargedTo(fees, n, k - 1) + Charged(n, k - 1, fees[k - 1]);
  }

  /** Equity is conserved at every point of a run: after k steps the exact assets have lost
      the borrow fees so far and a rounding of at most one collateral unit per deposit. */
  lemma {:induction false} LeverageConserves(a: Accounts, rate: Rate, percent: nat, n: nat, k: nat, fees: seq<nat>)
    requires 1 <= n && k <= n <= |fees|
    ensures var b := Levered(a, rate, percent, n, k, fees);
      0 <= Assets(a, rate) - Assets(b, rate) - ChargedTo(fees, n, k) * rate <= k * WAD
  {
    if k == 0 {
    } else {
      LeverageConserves(a, rate, percent, n, k - 1, fees);
      var before := Levered(a, rate, percent, n, k - 1, fees);
      LeveredStep(a, rate, percent, n, k, fees, before);
      StepConserves(before, rate, percent, n, k - 1, fees[k - 1]);
      ChargedNext(fees, n, k, rate);
    }
  }

  /** Bounded leverage at every point of a run: the collateral gained is worth at most
      100 / (100 - percent) times the liquidity the run started with, and the loans are
      within their percentage of the deposits so far. */
  lemma LeverageBounded(a: Accounts, rate: Rate, percent: nat, n: nat, k: nat, fees: seq<nat>)
    requires 1 <= n && k <= n <= |fees| && percent <= 100
    ensures (100 - percent) * ((Levered(a, rate, percent, n, k, fees).collateral - a.collateral) * WAD)
         <= 100 * (a.poolLiquidity * rate)
    ensures 100 * Loans(percent, a.poolLiquidity, k) <= percent * Deposited(percent, a.poolLiquidity, k)
  {
    var a0 := a.poolLiquidity;
    CollateralizedBound(rate, percent, a0, k);
    DepositsBounded(percent, a0, k);
    BorrowedTotal(percent, a0, k);
    SizeBound(percent, Collateralized(rate, percent, a0, k) * WAD, Deposited(percent, a0, k), a0, rate);
  }

  lemma SizeBound(percent: nat, value: nat, deposited: nat, a0: nat, rate: Rate)
    requires percent <= 100 && value <= deposited * rate
    requires (100 - percent) * deposited <= 100 * a0
    ensures (100 - percent) * value <= 100 * (a0 * rate)
  {
    MulMonotone(value, deposited * rate, 100 - percent);
    MulMonotone((100 - percent) * deposited, 100 * a0, rate);
    assert (100 - percent) * deposited * rate == (100 - percent) * (deposited * rate);
  }

  /** Health of one step, right after its borrow: the strain on the position rises by no
      more than the fee and the exact rounding of the deposit. With no fee and nothing
      rounded it never rises, whatever the percentage and even if the product wraps. */
  lemma StepHealth(a: Accounts, rate: Rate, percent: nat, n: nat, k: nat, fee: nat)
    requires k < n
    ensures var rounded := (a.poolLiquidity * rate) % WAD;
      Strain(LeverageStep(a, rate, percent, n, k, fee).value, rate, percent)
      <= Strain(a, rate, percent) + 100 * (Charged(n, k, fee) * rate) + percent * rounded
  {
    var x := a.poolLiquidity;
    StepIs(a, rate, percent, n, k, fee);
    BorrowedAtMost(percent, x);
    var loan := if k + 1 < n then Borrowed(percent, x) else 0;
    StrainAfterStep(a.collateral, LiquidityToCollateral(rate, x), WAD, a.debt, loan, Charged(n, k, fee), x,
                    (x * rate) % WAD, percent, rate);
  }

  lemma StrainAfterStep(c: nat, gained: nat, scale: nat, d: nat, loan: nat, fee: nat, x: nat, rounded: nat,
                        percent: nat, rate: Rate)
    requires x * rate == gained * scale + rounded
    requires 100 * loan <= x * percent
    ensures 100 * (d + loan + fee) * rate - percent * ((c + gained) * scale)
         <= 100 * d * rate - percent * (c * scale) + 100 * (fee * rate) + percent * rounded
  {
    MulMonotone(100 * loan, x * percent, rate);
    assert x * percent * rate == percent * (gained * scale) + percent * rounded by {
      assert x * percent * rate == percent * (x * rate);
    }
    assert percent * ((c + gained) * scale) == percent * (c * scale) + percent * (gained * scale);
    assert 100 * (d + loan + fee) * rate == 100 * d * rate + 100 * loan * rate + 100 * (fee * rate);
  }

  /** Health at every point of a run: after k steps, borrows included, the strain has risen
      by no more than the borrow fees so far and one collateral unit per deposit. */
  lemma {:induction false} LeverageHealth(a: Accounts, rate: Rate, percent: nat, n: nat, k: nat, fees: seq<nat>)
    requires 1 <= n && k <= n <= |fees|
    ensures Strain(Levered(a, rate, percent, n, k, fees), rate, percent)
         <= Strain(a, rate, percent) + 100 * (ChargedTo(fees, n, k) * rate) + percent * (k * WAD)
  {
    if k == 0 {
    } else {
      LeverageHealth(a, rate, percent, n, k - 1, fees);
      var before := Levered(a, rate, percent, n, k - 1, fees);
      LeveredStep(a, rate, percent, n, k, fees, before);
      StepHealth(before, rate, percent, n, k - 1, fees[k - 1]);
      ChargedNext(fees, n, k, rate);
      OneMoreUnit(percent, k, (before.poolLiquidity * rate) % WAD, WAD);
    }
  }

  lemma OneMoreUnit(percent: nat, k: nat, rounded: nat, scale: nat)
    requires 1 <= k && rounded <= scale
    ensures percent * ((k - 1) * scale) + percent * rounded <= percent * (k * scale)
  {
    MulMonotone((k - 1) * scale + rounded, k * scale, percent);
  }
}
