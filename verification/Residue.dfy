/** Leverage against unroll: the backward recurrence always asks for more than the forward
    loop put in, so a position can never be unrolled back to nothing. */
module Residue {
  import opened Wad
  import opened PortRate
  import opened Ledger
  import Leverage
  import opened Unroll
  import LeverageRun
  import opened UnrollRun

  /** Each level repays at least what the matching step borrowed. */
  lemma {:induction false} LevelCoversLoan(rate: Rate, percent: nat, a0: nat, u: nat, j: nat)
    requires a0 <= u
    ensures Leverage.Amount(percent, a0, j) <= Level(rate, percent, u, j)
  {
    if j == 0 {
    } else {
      LevelCoversLoan(rate, percent, a0, u, j - 1);
      var x := Leverage.Amount(percent, a0, j - 1);
      var v := Level(rate, percent, u, j - 1);
      Leverage.BorrowedAtMost(percent, x);
      WithdrawalCovers(rate, v);
      RepaymentIsCeiling(percent, Freed(rate, v) + 1);
      MulMonotone(x, Freed(rate, v) + 1, percent);
      Chain(percent, x, Freed(rate, v) + 1, Leverage.Borrowed(percent, x), Repayment(percent, Freed(rate, v) + 1));
    }
  }

  lemma Chain(percent: nat, x: nat, y: nat, borrowed: nat, repaid: nat)
    requires 100 * borrowed <= x * percent <= y * percent && percent * y <= 100 * repaid
    ensures borrowed <= repaid
  {
  }

  /** n levels withdraw at least n collateral units more than n deposits credited. */
  lemma {:induction false} WithdrawnExceeds(rate: Rate, percent: nat, a0: nat, u: nat, n: nat)
    requires a0 <= u
    ensures LeverageRun.Collateralized(rate, percent, a0, n) + n <= Withdrawn(rate, percent, u, n)
  {
    if n == 0 {
    } else {
      WithdrawnExceeds(rate, percent, a0, u, n - 1);
      LevelCoversLoan(rate, percent, a0, u, n - 1);
      CollateralMonotone(rate, Leverage.Amount(percent, a0, n - 1), Level(rate, percent, u, n - 1));
    }
  }

  lemma CollateralMonotone(rate: Rate, x: nat, y: nat)
    requires x <= y
    ensures LiquidityToCollateral(rate, x) <= LiquidityToCollateral(rate, y)
  {
    MulMonotone(x, y, rate);
    DivBounds(x * rate, WAD);
    DivAtLeast(x * rate / WAD, y * rate, WAD);
  }

  /** The last units stay: the position a leverage run built from nothing cannot be
      unrolled by the whole amount that went in, at any rate and any percentage. */
  lemma WholePositionStays(a: Accounts, rate: Rate, percent: nat, n: nat, fees: seq<nat>, u: nat)
    requires 1 <= n <= |fees| && a.collateral == 0 && a.poolLiquidity <= u
    ensures UnrollFrom(LeverageRun.Levered(a, rate, percent, n, n, fees), rate, percent, n, 0, u).Err?
  {
    WithdrawnExceeds(rate, percent, a.poolLiquidity, u, n);
    UnrollSucceedsIff(LeverageRun.Levered(a, rate, percent, n, n, fees), rate, percent, n, u);
  }
}
