/** The pool's state and what each instruction does to it, as functions on values.

    A step takes the instructions that follow it in the transaction, because the verify
    instructions look ahead. Any error aborts the whole transaction. */
module Pool {
  import opened Wad
  import opened PortRate
  import opened Ledger
  import opened Plan
  import Unroll
  import Leverage
  import LpShares

  const STALE_SLOT: nat := 50
  const MIN_LIQUIDITY_CAP: nat := 1_000_000

  /** What a transaction sees of the outside: the slot, the market's exchange rate and its
      loan-to-value percentage. */
  datatype Env = Env(slot: u64, rate: Rate, ltv: u8)

  datatype PortState = PortState(
    depositVerified: nat,
    redeemVerified: nat,
    leverage: nat,
    initPortLiquidity: nat,        // scaled
    approvedWallet: Key,
    isRedeemed: nat,
    redeemAmount: nat,
    amountToUnroll: nat,
    lastSoldSlot: nat,
    userLiquidityPercentage: nat)  // scaled
  {
    /** Everything but the slot of the last sale. */
    function Reset(): PortState {
      PortState(0, 0, 0, 0, Default, 0, 0, 0, lastSoldSlot, 0)
    }
  }

  const NEW_PORT_STATE := PortState(0, 0, 0, 0, Default, 0, 0, 0, 0, 0)

  datatype State = State(
    bump: nat,
    liquidityCap: nat,
    withdrawFeeBips: nat,
    minDeposit: nat,
    portIterate: nat,
    reservePercentage: nat,
    lpAmount: nat,
    port: PortState,
    accounts: Accounts)

  predicate ConfigValid(s: State) {
    && s.bump <= 255 && s.withdrawFeeBips <= 255
    && s.minDeposit > 10 && s.portIterate < 10 && s.reservePercentage < 10
  }

  predicate PortValid(s: State) {
    var p := s.port;
    && s.portIterate > p.leverage
    && p.depositVerified <= 1 && p.redeemVerified <= 1
    && !(p.redeemVerified == 1 && p.depositVerified == 1)
    && p.isRedeemed <= 1
    && (if p.leverage == 0 then
          p.initPortLiquidity == 0 && p.userLiquidityPercentage == 0 && p.amountToUnroll == 0 && p.redeemAmount == 0
        else
          s.lpAmount != 0 ==> p.initPortLiquidity != 0)
  }

  /** What the validity check demands of a run that goes on after its first step. */
  predicate Continues(s: State) {
    s.lpAmount == 0 || s.port.initPortLiquidity != 0
  }

  /** The check in front of every guarded instruction. */
  function ValidPool(s: State): Outcome {
    Require(ConfigValid(s) && PortValid(s), InvalidPoolState)
  }

  datatype InitParams = InitParams(
    liquidityCap: u64, withdrawFeeBips: u8, portIterate: u8, portReservePercentage: u8, portMinDeposit: u64)

  function CreatePool(bump: u8, params: InitParams, userLiquidity: map<Key, nat>): Result<State> {
    var guard := Require(1 <= params.portIterate < 10, InvalidPoolConfig);
    :- guard;
    :- Require(params.liquidityCap >= MIN_LIQUIDITY_CAP, InvalidPoolConfig);
    :- Require(1 <= params.portReservePercentage <= 20, InvalidPoolConfig);
    :- Require(params.portMinDeposit > 50, InvalidPoolConfig);
    Ok(State(bump, params.liquidityCap, params.withdrawFeeBips, params.portMinDeposit, params.portIterate,
             params.portReservePercentage, 0, NEW_PORT_STATE, Accounts(0, 0, 0, 0, 0, 0, userLiquidity, map[])))
  }

  /* The verify instructions. */

  function VerifyStep(s: State, kind: Kind, rest: seq<Instruction>): Result<State> {
    var wallet :- Scan(kind, rest, s.portIterate, 0, Default);
    Ok(match kind
       case Depositing => s.(port := s.port.(depositVerified := 1, approvedWallet := wallet))
       case Redeeming => s.(port := s.port.(redeemVerified := 1, approvedWallet := wallet)))
  }

  /* Deposits. */

  /** At most 50 slots since the last sale; a slot before it is an overflow. */
  function Fresh(slot: nat, lastSoldSlot: nat): Outcome {
    if slot < lastSoldSlot then Fail(MathOverflow)
    else Require(STALE_SLOT >= slot - lastSoldSlot, PortNotSell)
  }

  function DepositGuard(s: State, env: Env, amount: u64, userLiquidity: Key): Outcome {
    if s.port.lastSoldSlot != 0 && Fresh(env.slot, s.port.lastSoldSlot).Fail? then Fresh(env.slot, s.port.lastSoldSlot)
    else if s.port.depositVerified != 1 then Fail(DepositNotVerified)
    else if (s.port.leverage == 0) == (amount == 0) then Fail(DepositAmountInvalid)
    else if s.lpAmount != s.accounts.lpSupply then Fail(LPMintAmountNotMatch)
    else if s.port.approvedWallet != userLiquidity then Fail(WrongWallet)
    else ValidPool(s)
  }

  /** The first step: take the deposit in and remember what the position was worth. */
  function DepositOpen(s: State, env: Env, amount: u64, userLiquidity: Key): Result<State> {
    var portLiquidity :- PositionValue(env.rate, s.accounts.collateral, s.accounts.debt);
    var poolLiquidity := s.accounts.poolLiquidity;
    :- Require(portLiquidity + poolLiquidity * WAD + amount * WAD < s.liquidityCap * WAD, MeetDepositLimit);
    var percentage :- DecimalDivInt(amount * WAD, WrappingAdd(amount, poolLiquidity));
    var accounts :- TransferUserToPool(s.accounts, userLiquidity, amount);
    var rate :- RateFromDecimal(percentage);
    Ok(s.(accounts := accounts,
          port := s.port.(initPortLiquidity := portLiquidity, userLiquidityPercentage := rate)))
  }

  /** One turn of the leverage: deposit the wallet and, but for the last turn, borrow. */
  function LeverageStep(a: Accounts, rate: Rate, percent: nat, n: nat, k: nat, fee: nat): Result<Accounts> {
    var available := a.poolLiquidity;
    var deposited :- DepositAndCollateralize(a, rate, available);
    var last :- CheckedSub(n, 1);
    Ok(if k < last then Borrow(deposited, Leverage.Borrowed(percent, available), fee) else deposited)
  }

  /** The depositor's share of the rise in the position's worth, and the tokens for it.
      `after` and `before` are scaled; `before` is what belongs to everybody else. */
  datatype Credits = Credits(after: nat, gain: nat, before: nat, minted: nat)

  function CreditsOf(s: State, env: Env): Result<Credits> {
    var after :- PositionValue(env.rate, s.accounts.collateral, s.accounts.debt);
    :- Require(s.accounts.poolLiquidity == 0, Panicked);
    var rise :- DecimalSub(after, s.port.initPortLiquidity);
    var gain :- FloorU64(rise * s.port.userLiquidityPercentage / WAD);
    var before :- DecimalSub(after, gain * WAD);
    var minted :- LpShares.Minted(s.lpAmount, before, gain);
    Ok(Credits(after, gain, before, minted))
  }

  /** The last step: credit the depositor and mint. */
  function DepositClose(s: State, env: Env, userLp: Key): Result<State> {
    var credits :- CreditsOf(s, env);
    var lpAmount :- CheckedU64(s.lpAmount + credits.minted);
    var port := s.port.Reset();
    Ok(s.(lpAmount := lpAmount, accounts := MintLp(s.accounts, userLp, credits.minted),
          port := if port.lastSoldSlot == 0 then port.(lastSoldSlot := env.slot) else port))
  }

  /** One turn of the leverage on the pool, and the close after the last one. */
  function DepositTurn(s: State, env: Env, userLp: Key, fee: nat): Result<State> {
    var percent :- CheckedSub(env.ltv, s.reservePercentage);
    var accounts :- LeverageStep(s.accounts, env.rate, percent, s.portIterate, s.port.leverage, fee);
    var advanced := s.(accounts := accounts, port := s.port.(leverage := s.port.leverage + 1));
    if advanced.port.leverage == s.portIterate then DepositClose(advanced, env, userLp) else Ok(advanced)
  }

  function DepositStep(s: State, env: Env, amount: u64, userLiquidity: Key, userLp: Key, fee: nat): Result<State> {
    var guard := DepositGuard(s, env, amount, userLiquidity);
    :- guard;
    var started :- if s.port.leverage == 0 then DepositOpen(s, env, amount, userLiquidity) else Ok(s);
    DepositTurn(started, env, userLp, fee)
  }

  /* Redemptions. */

  function RedeemGuard(s: State, env: Env, amount: u64, userLp: Key): Outcome {
    if Fresh(env.slot, s.port.lastSoldSlot).Fail? then Fresh(env.slot, s.port.lastSoldSlot)
    else if (s.port.leverage == 0) == (amount == 0) then Fail(RedeemAmountInvalid)
    else if s.port.redeemVerified != 1 then Fail(RedeemNotVerified)
    else if s.lpAmount != s.accounts.lpSupply then Fail(LPMintAmountNotMatch)
    else if s.port.approvedWallet != userLp then Fail(WrongWallet)
    else ValidPool(s)
  }

  /** The first step: price the tokens, burn them, and see how much must be unrolled. */
  function RedeemOpen(s: State, env: Env, amount: u64, userLp: Key): Result<State> {
    var portLiquidity :- PositionValue(env.rate, s.accounts.collateral, s.accounts.debt);
    var available := s.accounts.poolLiquidity;
    var redeemAmount :- LpShares.Redeemed(s.lpAmount, portLiquidity + available * WAD, amount);
    var accounts :- BurnLp(s.accounts, userLp, amount);
    var lpAmount :- CheckedSub(s.lpAmount, amount);
    Ok(s.(lpAmount := lpAmount, accounts := accounts,
          port := s.port.(initPortLiquidity := portLiquidity, redeemAmount := redeemAmount,
                          amountToUnroll := if available < redeemAmount then redeemAmount - available else 0)))
  }

  /** One step of the unroll: repay (but for the first step), then withdraw and redeem. */
  function UnrollStep(a: Accounts, rate: Rate, percent: nat, n: nat, k: nat, unroll: nat): Result<Accounts> {
    var turns :- CheckedSub(n, k);
    var amounts :- Unroll.AmountsAfter(rate, percent, unroll, turns);
    var repaid :- if k == 0 then Ok(a) else Repay(a, amounts.repay);
    var withdrawn :- Withdraw(repaid, amounts.withdraw);
    RedeemCollateral(withdrawn, rate, amounts.withdraw)
  }

  function WithdrawFee(bips: nat, redeemAmount: nat): Result<nat> {
    CeilU64(bips * BIPS * redeemAmount)
  }

  /** The payout: fee first, then the user. */
  function RedeemPay(s: State, userLiquidity: Key): Result<State> {
    var fee :- WithdrawFee(s.withdrawFeeBips, s.port.redeemAmount);
    var redeemExcludeFee :- CheckedSub(s.port.redeemAmount, fee);
    var feePaid :- TransferPoolToFee(s.accounts, fee);
    var accounts :- TransferPoolToUser(feePaid, userLiquidity, redeemExcludeFee);
    Ok(s.(accounts := accounts, port := s.port.(isRedeemed := 1)))
  }

  /** Unrolling, unless nothing has to be unrolled. */
  function RedeemUnroll(s: State, env: Env): Result<State> {
    if s.port.leverage > 0 || s.port.amountToUnroll != 0 then
      var percent :- CheckedSub(env.ltv, s.reservePercentage);
      var accounts :- UnrollStep(s.accounts, env.rate, percent, s.portIterate, s.port.leverage, s.port.amountToUnroll);
      Ok(s.(accounts := accounts))
    else
      Ok(s)
  }

  /** The part of a step that a run skips once it has paid out. */
  function RedeemWork(s: State, env: Env, amount: u64, userLiquidity: Key, userLp: Key): Result<State> {
    var started :- if s.port.leverage == 0 then RedeemOpen(s, env, amount, userLp) else Ok(s);
    var unrolled :- RedeemUnroll(started, env);
    var last :- CheckedSub(unrolled.portIterate, 1);
    if unrolled.port.leverage == last || (unrolled.port.leverage == 0 && unrolled.port.amountToUnroll == 0)
    then RedeemPay(unrolled, userLiquidity)
    else Ok(unrolled)
  }

  function RedeemStep(s: State, env: Env, amount: u64, userLiquidity: Key, userLp: Key): Result<State> {
    var guard := RedeemGuard(s, env, amount, userLp);
    :- guard;
    var worked :- if s.port.isRedeemed != 1 then RedeemWork(s, env, amount, userLiquidity, userLp) else Ok(s);
    var advanced := worked.port.(leverage := worked.port.leverage + 1);
    Ok(worked.(port := if advanced.leverage == worked.portIterate then advanced.Reset() else advanced))
  }

  /* The other instructions. */

  function SellStep(s: State, env: Env, proceeds: nat): Result<State> {
    var guard := ValidPool(s);
    :- guard;
    Ok(s.(port := s.port.(lastSoldSlot := env.slot),
          accounts := s.accounts.(poolLiquidity := s.accounts.poolLiquidity + proceeds)))
  }

  function ChangeCapStep(s: State, cap: u64): Result<State> {
    var guard := Require(cap >= MIN_LIQUIDITY_CAP, InvalidPoolConfig);
    :- guard;
    :- ValidPool(s);
    Ok(s.(liquidityCap := cap))
  }

  function ChangeFeeStep(s: State, bips: u8): Result<State> {
    var guard := ValidPool(s);
    :- guard;
    Ok(s.(withdrawFeeBips := bips))
  }

  function ChangeMinDepositStep(s: State, minDeposit: u64): Result<State> {
    var guard := ValidPool(s);
    :- guard;
    Ok(s.(minDeposit := minDeposit))
  }

  function OtherStep(s: State, guarded: bool): Result<State> {
    var guard := Require(!guarded || ValidPool(s).Pass?, InvalidPoolState);
    :- guard;
    Ok(s)
  }

  function Step(s: State, env: Env, ins: Instruction, rest: seq<Instruction>): Result<State> {
    match ins
    case Foreign => Ok(s)
    case VerifyDeposit => VerifyStep(s, Depositing, rest)
    case VerifyRedeem => VerifyStep(s, Redeeming, rest)
    case Deposit(amount, userLiquidity, userLp, fee) => DepositStep(s, env, amount, userLiquidity, userLp, fee)
    case Redeem(amount, userLiquidity, userLp) => RedeemStep(s, env, amount, userLiquidity, userLp)
    case ClaimAndSell(proceeds) => SellStep(s, env, proceeds)
    case ChangeLiquidityCap(cap) => ChangeCapStep(s, cap)
    case ChangeWithdrawFee(bips) => ChangeFeeStep(s, bips)
    case ChangeMinDeposit(minDeposit) => ChangeMinDepositStep(s, minDeposit)
    case OtherPole(guarded) => OtherStep(s, guarded)
  }

  /** A transaction: its instructions in order, or the first error. */
  function Run(s: State, env: Env, tx: seq<Instruction>): Result<State>
    decreases |tx|
  {
    if tx == [] then Ok(s)
    else
      var next :- Step(s, env, tx[0], tx[1..]);
      Run(next, env, tx[1..])
  }
}
