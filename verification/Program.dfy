/** The program itself: account objects whose fields the instructions update in place, and
    the transaction runner that undoes a failed transaction. Every method is proved to do
    what the step function of the same name does to the values of the fields; a failing
    instruction may leave the fields half updated, which is why the runner rolls back. */
module Program {
  import opened Wad
  import opened PortRate
  import opened Ledger
  import opened Plan
  import Unroll
  import LpShares
  import P = Pool

  class PortState {
    var depositVerified: nat
    var redeemVerified: nat
    var leverage: nat
    var initPortLiquidity: nat
    var approvedWallet: Key
    var isRedeemed: nat
    var redeemAmount: nat
    var amountToUnroll: nat
    var lastSoldSlot: nat
    var userLiquidityPercentage: nat

    constructor ()
      ensures Value() == P.NEW_PORT_STATE
    {
      depositVerified, redeemVerified, leverage, initPortLiquidity := 0, 0, 0, 0;
      approvedWallet := Default;
      isRedeemed, redeemAmount, amountToUnroll, lastSoldSlot, userLiquidityPercentage := 0, 0, 0, 0, 0;
    }

    function Value(): P.PortState
      reads this
    {
      P.PortState(depositVerified, redeemVerified, leverage, initPortLiquidity, approvedWallet, isRedeemed,
                  redeemAmount, amountToUnroll, lastSoldSlot, userLiquidityPercentage)
    }

    method Reset()
      modifies this
      ensures Value() == old(Value()).Reset()
    {
      depositVerified := 0;
      redeemVerified := 0;
      leverage := 0;
      initPortLiquidity := 0;
      approvedWallet := Default;
      isRedeemed := 0;
      redeemAmount := 0;
      amountToUnroll := 0;
      userLiquidityPercentage := 0;
    }

    method Restore(p: P.PortState)
      modifies this
      ensures Value() == p
    {
      depositVerified, redeemVerified, leverage := p.depositVerified, p.redeemVerified, p.leverage;
      initPortLiquidity, approvedWallet, isRedeemed := p.initPortLiquidity, p.approvedWallet, p.isRedeemed;
      redeemAmount, amountToUnroll, lastSoldSlot := p.redeemAmount, p.amountToUnroll, p.lastSoldSlot;
      userLiquidityPercentage := p.userLiquidityPercentage;
    }
  }

  class PolePool {
    var bump: nat
    var liquidityCap: nat
    var withdrawFeeBips: nat
    var minDeposit: nat
    var portIterate: nat
    var reservePercentage: nat
    var lpAmount: nat
    const portState: PortState
    var accounts: Accounts

    constructor (s: P.State)
      requires s.port == P.NEW_PORT_STATE
      ensures Value() == s && fresh(portState)
    {
      bump, liquidityCap, withdrawFeeBips := s.bump, s.liquidityCap, s.withdrawFeeBips;
      minDeposit, portIterate, reservePercentage := s.minDeposit, s.portIterate, s.reservePercentage;
      lpAmount, accounts := s.lpAmount, s.accounts;
      portState := new PortState();
    }

    function Value(): P.State
      reads this, portState
    {
      P.State(bump, liquidityCap, withdrawFeeBips, minDeposit, portIterate, reservePercentage, lpAmount,
              portState.Value(), accounts)
    }

    /** A method agrees with its step function: the same error, or the same new state. */
    predicate Agrees(r: Result<()>, expected: Result<P.State>)
      reads this, portState
    {
      match expected
      case Ok(s) => r.Ok? && Value() == s
      case Err(e) => r == Err(e)
    }

    static method CreatePool(bump: u8, params: P.InitParams, userLiquidity: map<Key, nat>)
      returns (r: Result<PolePool>)
      ensures r.Ok? <==> P.CreatePool(bump, params, userLiquidity).Ok?
      ensures r.Ok? ==> fresh(r.value) && fresh(r.value.portState)
      ensures r.Ok? ==> r.value.Value() == P.CreatePool(bump, params, userLiquidity).value
    {
      if !(params.portIterate < 10 && params.portIterate >= 1)
        || params.liquidityCap < P.MIN_LIQUIDITY_CAP
        || !(params.portReservePercentage <= 20 && params.portReservePercentage >= 1)
        || params.portMinDeposit <= 50
      {
        return Err(InvalidPoolConfig);
      }
      var pool := new PolePool(
        P.State(bump, params.liquidityCap, params.withdrawFeeBips, params.portMinDeposit, params.portIterate,
                params.portReservePercentage, 0, P.NEW_PORT_STATE,
                Accounts(0, 0, 0, 0, 0, 0, userLiquidity, map[])));
      return Ok(pool);
    }

    method VerifyDeposit(rest: seq<Instruction>) returns (r: Result<()>)
      modifies portState
      ensures Agrees(r, P.VerifyStep(old(Value()), Depositing, rest))
    {
      var approvedWallet :- ScanPlan(Depositing, rest, portIterate);
      portState.depositVerified := 1;
      portState.approvedWallet := approvedWallet;
      return Ok(());
    }

    method VerifyRedeem(rest: seq<Instruction>) returns (r: Result<()>)
      modifies portState
      ensures Agrees(r, P.VerifyStep(old(Value()), Redeeming, rest))
    {
      var approvedWallet :- ScanPlan(Redeeming, rest, portIterate);
      portState.redeemVerified := 1;
      portState.approvedWallet := approvedWallet;
      return Ok(());
    }

    method PortLendingLeveraging(rate: Rate, borrowFraction: nat, iterate: nat, currentLeverage: nat, fee: nat)
      returns (r: Result<()>)
      modifies this`accounts
      ensures match P.LeverageStep(old(accounts), rate, borrowFraction, iterate, currentLeverage, fee)
              case Ok(a) => r.Ok? && accounts == a
              case Err(e) => r == Err(e)
    {
      var availableLiquidity := accounts.poolLiquidity;
      accounts := DepositAndCollateralize(accounts, rate, availableLiquidity).value;  // the wallet covers itself
      var last :- CheckedSub(iterate, 1);
      if currentLeverage < last {
        accounts := Borrow(accounts, WrappingMul(availableLiquidity, borrowFraction) / 100, fee);
      }
      return Ok(());
    }

    method PortLendingUnroll(rate: Rate, repayPercent: nat, iterate: nat, currentLeverage: nat, unrollAmount: nat)
      returns (r: Result<()>)
      modifies this`accounts
      ensures match P.UnrollStep(old(accounts), rate, repayPercent, iterate, currentLeverage, unrollAmount)
              case Ok(a) => r.Ok? && accounts == a
              case Err(e) => r == Err(e)
    {
      var turns :- CheckedSub(iterate, currentLeverage);
      var amounts :- Unroll.ComputeAmounts(rate, repayPercent, unrollAmount, turns);
      if currentLeverage != 0 {
        accounts :- Repay(accounts, amounts.repay);
      }
      accounts :- Withdraw(accounts, amounts.withdraw);
      accounts :- RedeemCollateral(accounts, rate, amounts.withdraw);
      return Ok(());
    }

    /** The block of `deposit_liquidity` that takes the deposit in. */
    method OpenDeposit(env: P.Env, amount: u64, userLiquidity: Key) returns (r: Result<()>)
      modifies this, portState
      ensures Agrees(r, P.DepositOpen(old(Value()), env, amount, userLiquidity))
    {
      var portLiquidity :- PositionValue(env.rate, accounts.collateral, accounts.debt);
      var poleInitLiquidity := accounts.poolLiquidity;
      if portLiquidity + poleInitLiquidity * WAD + amount * WAD >= liquidityCap * WAD {
        return Err(MeetDepositLimit);
      }
      var percentage :- DecimalDivInt(amount * WAD, WrappingAdd(amount, poleInitLiquidity));
      accounts :- TransferUserToPool(accounts, userLiquidity, amount);
      portState.initPortLiquidity := portLiquidity;
      portState.userLiquidityPercentage :- RateFromDecimal(percentage);
      return Ok(());
    }

    /** The last block of `deposit_liquidity`. */
    method CloseDeposit(env: P.Env, userLp: Key) returns (r: Result<()>)
      modifies this, portState
      ensures Agrees(r, P.DepositClose(old(Value()), env, userLp))
    {
      var afterPortLiquidity :- PositionValue(env.rate, accounts.collateral, accounts.debt);
      if accounts.poolLiquidity != 0 {
        return Err(Panicked);
      }
      var rise :- DecimalSub(afterPortLiquidity, portState.initPortLiquidity);
      var userLiquidityGain :- FloorU64(rise * portState.userLiquidityPercentage / WAD);
      var before :- DecimalSub(afterPortLiquidity, userLiquidityGain * WAD);
      var exchangeRate := LpShares.ExchangeRate(lpAmount, before).value;
      var mintAmount :- LpShares.LiquidityToLp(exchangeRate, userLiquidityGain);
      lpAmount :- CheckedU64(lpAmount + mintAmount);
      accounts := MintLp(accounts, userLp, mintAmount);
      portState.Reset();
      if portState.lastSoldSlot == 0 {
        portState.lastSoldSlot := env.slot;
      }
      return Ok(());
    }

    /** The block of `deposit_liquidity` that turns the leverage once. */
    method TurnDeposit(env: P.Env, userLp: Key, fee: nat) returns (r: Result<()>)
      modifies this, portState
      ensures Agrees(r, P.DepositTurn(old(Value()), env, userLp, fee))
    {
      var borrowFraction :- CheckedSub(env.ltv, reservePercentage);
      var _ :- PortLendingLeveraging(env.rate, borrowFraction, portIterate, portState.leverage, fee);
      portState.leverage := portState.leverage + 1;
      if portState.leverage == portIterate {
        r := CloseDeposit(env, userLp);
        return;
      }
      return Ok(());
    }

    method DepositLiquidity(env: P.Env, amount: u64, userLiquidity: Key, userLp: Key, fee: nat)
      returns (r: Result<()>)
      modifies this, portState
      ensures Agrees(r, P.DepositStep(old(Value()), env, amount, userLiquidity, userLp, fee))
    {
      var guard := P.DepositGuard(Value(), env, amount, userLiquidity);
      :- guard;
      if portState.leverage == 0 {
        var _ :- OpenDeposit(env, amount, userLiquidity);
      }
      r := TurnDeposit(env, userLp, fee);
    }

    /** The block of `redeem_liquidity` that prices and burns. */
    method OpenRedeem(env: P.Env, amount: u64, userLp: Key) returns (r: Result<()>)
      modifies this, portState
      ensures Agrees(r, P.RedeemOpen(old(Value()), env, amount, userLp))
    {
      var portLiquidity :- PositionValue(env.rate, accounts.collateral, accounts.debt);
      var availableLiquidity := accounts.poolLiquidity;
      portState.initPortLiquidity := portLiquidity;
      var exchangeRate := LpShares.ExchangeRate(lpAmount, portLiquidity + availableLiquidity * WAD).value;
      var redeemLiquidityAmount :- LpShares.LpToLiquidity(exchangeRate, amount);
      portState.redeemAmount := redeemLiquidityAmount;
      portState.amountToUnroll :=
        if availableLiquidity < redeemLiquidityAmount then redeemLiquidityAmount - availableLiquidity else 0;
      accounts :- BurnLp(accounts, userLp, amount);
      lpAmount :- CheckedSub(lpAmount, amount);
      return Ok(());
    }

    /** The block of `redeem_liquidity` that unrolls. */
    method UnrollRedeem(env: P.Env) returns (r: Result<()>)
      modifies this`accounts
      ensures Agrees(r, P.RedeemUnroll(old(Value()), env))
    {
      if portState.leverage > 0 || portState.amountToUnroll != 0 {
        var repayPercent :- CheckedSub(env.ltv, reservePercentage);
        var _ :- PortLendingUnroll(env.rate, repayPercent, portIterate, portState.leverage, portState.amountToUnroll);
      }
      return Ok(());
    }

    /** The block of `redeem_liquidity` that pays the fee and the user. */
    method PayRedeem(userLiquidity: Key) returns (r: Result<()>)
      modifies this, portState
      ensures Agrees(r, P.RedeemPay(old(Value()), userLiquidity))
    {
      var fee :- P.WithdrawFee(withdrawFeeBips, portState.redeemAmount);
      var redeemExcludeFee :- CheckedSub(portState.redeemAmount, fee);
      accounts :- TransferPoolToFee(accounts, fee);
      accounts :- TransferPoolToUser(accounts, userLiquidity, redeemExcludeFee);
      portState.isRedeemed := 1;
      return Ok(());
    }

    /** The body of `redeem_liquidity` that runs until the payout is made. */
    method RedeemWork(env: P.Env, amount: u64, userLiquidity: Key, userLp: Key) returns (r: Result<()>)
      modifies this, portState
      ensures Agrees(r, P.RedeemWork(old(Value()), env, amount, userLiquidity, userLp))
    {
      if portState.leverage == 0 {
        var _ :- OpenRedeem(env, amount, userLp);
      }
      var _ :- UnrollRedeem(env);
      var last :- CheckedSub(portIterate, 1);
      if portState.leverage == last || (portState.leverage == 0 && portState.amountToUnroll == 0) {
        r := PayRedeem(userLiquidity);
        return;
      }
      return Ok(());
    }

    method RedeemLiquidity(env: P.Env, amount: u64, userLiquidity: Key, userLp: Key) returns (r: Result<()>)
      modifies this, portState
      ensures Agrees(r, P.RedeemStep(old(Value()), env, amount, userLiquidity, userLp))
    {
      var guard := P.RedeemGuard(Value(), env, amount, userLp);
      :- guard;
      if portState.isRedeemed != 1 {
        var _ :- RedeemWork(env, amount, userLiquidity, userLp);
      }
      portState.leverage := portState.leverage + 1;
      if portState.leverage == portIterate {
        portState.Reset();
      }
      return Ok(());
    }

    method ClaimAndSell(env: P.Env, proceeds: nat) returns (r: Result<()>)
      modifies this, portState
      ensures Agrees(r, P.SellStep(old(Value()), env, proceeds))
    {
      var guard := P.ValidPool(Value());
      :- guard;
      accounts := accounts.(poolLiquidity := accounts.poolLiquidity + proceeds);
      portState.lastSoldSlot := env.slot;
      return Ok(());
    }

    method ChangeLiquidityCap(cap: u64) returns (r: Result<()>)
      modifies this
      ensures Agrees(r, P.ChangeCapStep(old(Value()), cap))
    {
      if cap < P.MIN_LIQUIDITY_CAP {
        return Err(InvalidPoolConfig);
      }
      :- P.ValidPool(Value());
      liquidityCap := cap;
      return Ok(());
    }

    method ChangeWithdrawFee(bips: u8) returns (r: Result<()>)
      modifies this
      ensures Agrees(r, P.ChangeFeeStep(old(Value()), bips))
    {
      var guard := P.ValidPool(Value());
      :- guard;
      withdrawFeeBips := bips;
      return Ok(());
    }

    method ChangeMinDeposit(newMinDeposit: u64) returns (r: Result<()>)
      modifies this
      ensures Agrees(r, P.ChangeMinDepositStep(old(Value()), newMinDeposit))
    {
      var guard := P.ValidPool(Value());
      :- guard;
      minDeposit := newMinDeposit;
      return Ok(());
    }

    method Execute(env: P.Env, ins: Instruction, rest: seq<Instruction>) returns (r: Result<()>)
      modifies this, portState
      ensures Agrees(r, P.Step(old(Value()), env, ins, rest))
    {
      match ins
      case Foreign => r := Ok(());
      case VerifyDeposit => r := VerifyDeposit(rest);
      case VerifyRedeem => r := VerifyRedeem(rest);
      case Deposit(amount, userLiquidity, userLp, fee) =>
        r := DepositLiquidity(env, amount, userLiquidity, userLp, fee);
      case Redeem(amount, userLiquidity, userLp) => r := RedeemLiquidity(env, amount, userLiquidity, userLp);
      case ClaimAndSell(proceeds) => r := ClaimAndSell(env, proceeds);
      case ChangeLiquidityCap(cap) => r := ChangeLiquidityCap(cap);
      case ChangeWithdrawFee(bips) => r := ChangeWithdrawFee(bips);
      case ChangeMinDeposit(m) => r := ChangeMinDeposit(m);
      case OtherPole(guarded) =>
        r := if guarded && P.ValidPool(Value()).Fail? then Err(InvalidPoolState) else Ok(());
    }

    method Restore(s: P.State)
      modifies this, portState
      ensures Value() == s
    {
      bump, liquidityCap, withdrawFeeBips := s.bump, s.liquidityCap, s.withdrawFeeBips;
      minDeposit, portIterate, reservePercentage := s.minDeposit, s.portIterate, s.reservePercentage;
      lpAmount, accounts := s.lpAmount, s.accounts;
      portState.Restore(s.port);
    }

    /** A transaction is atomic: it ends as `Run` says, or leaves the pool as it was. */
    method ExecuteTransaction(env: P.Env, tx: seq<Instruction>) returns (r: Result<()>)
      modifies this, portState
      ensures Agrees(r, P.Run(old(Value()), env, tx))
      ensures r.Err? ==> Value() == old(Value())
    {
      var snapshot := Value();
      var i := 0;
      while i < |tx|
        invariant 0 <= i <= |tx|
        invariant P.Run(snapshot, env, tx) == P.Run(Value(), env, tx[i..])
      {
        assert tx[i..][0] == tx[i] && tx[i..][1..] == tx[i + 1..];
        r := Execute(env, tx[i], tx[i + 1..]);
        if r.Err? {
          Restore(snapshot);
          return;
        }
        i := i + 1;
      }
      return Ok(());
    }
  }
}
