/** What each guard refuses, error by error. */
module Guards {
  import opened Wad
  import opened PortRate
  import opened Ledger
  import opened Plan
  import opened Pool
  import DepositRun
  import LpShares
  import RedeemRun
  import Unroll

  /** A sale is fresh for 50 slots; a slot before it is an overflow. */
  lemma FreshIff(slot: nat, lastSoldSlot: nat)
    ensures Fresh(slot, lastSoldSlot).Pass? <==> lastSoldSlot <= slot <= lastSoldSlot + 50
    ensures Fresh(slot, lastSoldSlot) == Fail(MathOverflow) <==> slot < lastSoldSlot
    ensures Fresh(slot, lastSoldSlot) == Fail(PortNotSell) <==> lastSoldSlot + 50 < slot
  {
  }

  /** A deposit step is refused for the first of these that does not hold. */
  lemma DepositRefused(s: State, env: Env, amount: u64, wallet: Key)
    ensures var g := DepositGuard(s, env, amount, wallet);
      var sold := DepositRun.SaleAllows(s, env);
      var own := sold && s.port.depositVerified == 1;
      var first := own && (s.port.leverage == 0 <==> 0 < amount);
      var minted := first && s.lpAmount == s.accounts.lpSupply;
      var approved := minted && wallet == s.port.approvedWallet;
      && (g == Fail(MathOverflow) <==> s.port.lastSoldSlot != 0 && env.slot < s.port.lastSoldSlot)
      && (g == Fail(PortNotSell) <==> s.port.lastSoldSlot != 0 && s.port.lastSoldSlot + 50 < env.slot)
      && (g == Fail(DepositNotVerified) <==> sold && !own)
      && (g == Fail(DepositAmountInvalid) <==> own && !first)
      && (g == Fail(LPMintAmountNotMatch) <==> first && !minted)
      && (g == Fail(WrongWallet) <==> minted && !approved)
      && (g == Fail(InvalidPoolState) <==> approved && !(ConfigValid(s) && PortValid(s)))
      && (g.Pass? <==> approved && ConfigValid(s) && PortValid(s))
  {
  }

  /** A redeem step is refused for the first of these that does not hold. */
  lemma RedeemRefused(s: State, env: Env, amount: u64, wallet: Key)
    ensures var g := RedeemGuard(s, env, amount, wallet);
      var sold := RedeemRun.SaleAllows(s, env);
      var first := sold && (s.port.leverage == 0 <==> 0 < amount);
      var own := first && s.port.redeemVerified == 1;
      var minted := own && s.lpAmount == s.accounts.lpSupply;
      var approved := minted && wallet == s.port.approvedWallet;
      && (g == Fail(MathOverflow) <==> env.slot < s.port.lastSoldSlot)
      && (g == Fail(PortNotSell) <==> s.port.lastSoldSlot + 50 < env.slot)
      && (g == Fail(RedeemAmountInvalid) <==> sold && !first)
      && (g == Fail(RedeemNotVerified) <==> first && !own)
      && (g == Fail(LPMintAmountNotMatch) <==> own && !minted)
      && (g == Fail(WrongWallet) <==> minted && !approved)
      && (g == Fail(InvalidPoolState) <==> approved && !(ConfigValid(s) && PortValid(s)))
      && (g.Pass? <==> approved && ConfigValid(s) && PortValid(s))
  {
  }

  /** Why an opening fails, in the order of the program. */
  lemma DepositOpeningRefused(s: State, env: Env, ins: Instruction)
    requires DepositRun.Ready(s) && ins.Deposit? && 0 < ins.amount
    ensures var r := DepositRun.Opening(s, env, ins);
      var worth := DepositRun.WorthOf(s, env);
      var below := worth.Ok?
        && worth.value + (ins.amount + s.accounts.poolLiquidity) * WAD < s.liquidityCap * WAD;
      && (r == Err(MathFailure) <==> worth.Err?)
      && (r == Err(MeetDepositLimit) <==> worth.Ok? && !below)
      && (r == Err(TokenFailure) <==> below && Balance(s.accounts.userLiquidity, ins.userLiquidity) < ins.amount)
      && (r.Err? ==> r.error in {MathFailure, MeetDepositLimit, TokenFailure})
  {
    DepositRun.OpeningIs(s, env, ins);
  }

  lemma RedeemOpeningRefused(s: State, env: Env, ins: Instruction)
    requires RedeemRun.Ready(s) && ins.Redeem?
    ensures var r := RedeemRun.Opening(s, env, ins);
      var worth := DepositRun.WorthOf(s, env);
      var priced := worth.Ok?
        && (var price := RedeemRun.Price(s, RedeemRun.PricedAssets(s, env));
            0 < price && ins.amount * WAD / price < 0x1_0000_0000_0000_0000);
      && (r == Err(MathFailure) <==> !priced)
      && (r == Err(TokenFailure) <==>
            priced && (Balance(s.accounts.userLp, ins.userLp) < ins.amount || s.lpAmount < ins.amount))
      && (r.Err? ==> r.error in {MathFailure, TokenFailure})
  {
    RedeemRun.OpeningIs(s, env, ins);
    if DepositRun.WorthOf(s, env).Ok? {
      RedeemRun.PriceIs(s, RedeemRun.PricedAssets(s, env), ins.amount);
    }
  }

  /** Why a close fails, on the state the turns of a run leave. */
  lemma CloseRefused(s: State, env: Env, userLp: Key, amount: nat, total: nat)
    requires DepositRun.Turned(s, env, amount, total)
    ensures var r := DepositClose(s, env, userLp);
      var worth := DepositRun.WorthOf(s, env);
      var kept := worth.Ok? && s.port.initPortLiquidity <= worth.value;
      var minted := kept && DepositRun.TokensFor(s, worth.value) < 0x1_0000_0000_0000_0000;
      && (r == Err(MathFailure) <==> !minted)
      && (r == Err(MathOverflow) <==>
            minted && 0x1_0000_0000_0000_0000 <= s.lpAmount + DepositRun.TokensFor(s, worth.value))
      && (r.Err? ==> r.error in {MathFailure, MathOverflow})
  {
    if DepositRun.WorthOf(s, env).Ok? && s.port.initPortLiquidity <= DepositRun.WorthOf(s, env).value {
      var after := DepositRun.WorthOf(s, env).value;
      var gain := DepositRun.Gain(s, after);
      DepositRun.GainBounds(s, env, amount, total, after);
      LpShares.MintedIs(s.lpAmount, after - gain * WAD, gain);
    }
  }

  /** Why an unroll step fails: its amounts, the wallet, or the position, in that order. */
  lemma UnrollRefused(a: Accounts, rate: Rate, percent: nat, n: nat, k: nat, u: nat)
    ensures var r := UnrollStep(a, rate, percent, n, k, u);
      if n < k then r == Err(MathOverflow)
      else
        var amounts := Unroll.AmountsAfter(rate, percent, u, n - k);
        if amounts.Err? then r == Err(amounts.error)
        else
          var (repay, w) := (if k == 0 then 0 else amounts.value.repay, amounts.value.withdraw);
          && (r == Err(TokenFailure) <==> a.poolLiquidity < repay)
          && (r == Err(PortFailure) <==> repay <= a.poolLiquidity && (a.debt < repay || a.collateral < w))
          && (r.Err? ==> r.error in {TokenFailure, PortFailure})
  {
  }

  /** A reserve above the market's loan-to-value stops every turn and every unroll. */
  lemma RatioRefused(s: State, env: Env, userLp: Key, fee: nat)
    requires env.ltv < s.reservePercentage
    ensures DepositTurn(s, env, userLp, fee) == Err(MathOverflow)
    ensures 0 < s.port.leverage || s.port.amountToUnroll != 0 ==> RedeemUnroll(s, env) == Err(MathOverflow)
  {
  }

  /** A payout fails only for want of liquidity. */
  lemma PayoutRefused(s: State, user: Key)
    requires s.withdrawFeeBips <= 255 && s.port.redeemAmount < 0x1_0000_0000_0000_0000
    ensures RedeemPay(s, user).Err? <==> s.accounts.poolLiquidity < s.port.redeemAmount
    ensures RedeemPay(s, user).Err? ==> RedeemPay(s, user) == Err(TokenFailure)
  {
    RedeemRun.PayoutIff(s, user);
  }
}
