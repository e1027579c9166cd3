/** Concrete runs: what the theorems about accepted runs apply to, and where they stop. */
module Instances {
  import opened Wad
  import opened PortRate
  import opened Ledger
  import opened Plan
  import opened Pool
  import opened LeverageRun
  import opened DepositRun
  import opened DepositCredit
  import Approved
  import Leverage
  import LpShares
  import RedeemRun
  import Redemption
  import Unroll

  /* A deposit and its redemption that profit: a pool of one step with three tokens out. */

  const RATE_ONE := Env(1, WAD, 75)
  const DEPOSIT := Deposit(1770136794737, Address(1), Address(1), 0)
  const REDEEM := Redeem(749700, Address(1), Address(1))

  function SmallPool(lp: nat, port: PortState, accounts: Accounts): State {
    State(255, 2_000_000_000_000, 0, 51, 1, 5, lp, port, accounts)
  }

  const VERIFIED := NEW_PORT_STATE.(depositVerified := 1, approvedWallet := Address(1), lastSoldSlot := 1)
  const WALLETS := Accounts(0, 0, 0, 7083380, 0, 3, map[Address(1) := 1770136794737], map[Address(2) := 3])
  const SPENT := WALLETS.(userLiquidity := map[Address(1) := 0])
  const RECORDED := VERIFIED.(initPortLiquidity := 7083380 * WAD, userLiquidityPercentage := WAD)

  const FIRST := SmallPool(3, VERIFIED, WALLETS)
  const OPENED := SmallPool(3, RECORDED, SPENT.(poolLiquidity := 1770136794737))
  const TURNED := SmallPool(3, RECORDED.(leverage := 1), SPENT.(collateral := 1770143878117))
  const MINTED := SmallPool(749703, VERIFIED.Reset(),
    TURNED.accounts.(lpSupply := 749703, userLp := map[Address(2) := 3, Address(1) := 749700]))
  const SECOND := MINTED.(port := MINTED.port.(redeemVerified := 1, approvedWallet := Address(1)))

  lemma WorthAtRateOne(c: nat, d: nat)
    requires d <= c
    ensures PositionValue(WAD, c, d) == Ok((c - d) * WAD)
  {
    TimesThenOver(c * WAD, WAD);
  }

  lemma TimesThenOver(x: nat, y: nat)
    requires 0 < y
    ensures x * y / y == x
  {
    DivAtLeast(x, x * y, y);
    DivAtMost(x, x * y, y);
  }

  lemma WholeShare(amount: nat)
    requires 0 < amount
    ensures amount * WAD / amount == WAD
  {
    TimesThenOver(WAD, amount);
    assert WAD * amount == amount * WAD;
  }

  lemma SmallPoolOpens()
    ensures Opens(FIRST, RATE_ONE, DEPOSIT) && Started(FIRST, RATE_ONE, DEPOSIT) == OPENED
  {
    WorthAtRateOne(7083380, 0);
    WholeShare(1770136794737);
    assert WALLETS.userLiquidity[Address(1) := 0] == SPENT.userLiquidity;
  }

  lemma SmallPoolTurns(fees: seq<nat>)
    requires |fees| == 1
    ensures Before(OPENED, RATE_ONE, 1, fees) == TURNED
  {
    assert Leverage.Amount(70, 1770136794737, 0) == 1770136794737;
    assert Collateralized(WAD, 70, 1770136794737, 1) == 1770136794737;
  }

  lemma SmallPoolCloses()
    ensures DepositClose(TURNED, RATE_ONE, Address(1)) == Ok(MINTED)
  {
    assert CreditsOf(TURNED, RATE_ONE)
        == Ok(Credits(1770143878117 * WAD, 1770136794737, 7083380 * WAD, 749700)) by {
      LpShares.RoundTripCanProfit();
    }
    assert Credit(TURNED.accounts.userLp, Address(1), 749700) == MINTED.accounts.userLp;
  }

  lemma SmallPoolRedeems()
    ensures RedeemRun.Opening(SECOND, RATE_ONE, REDEEM).Ok?
    ensures RedeemRun.Opening(SECOND, RATE_ONE, REDEEM).value.port.redeemAmount == DEPOSIT.amount + 3
  {
    LpShares.RoundTripCanProfit();
    assert WorthOf(SECOND, RATE_ONE) == Ok(1770143878117 * WAD);
    RedeemOpenIs(SECOND, RATE_ONE, REDEEM.amount, REDEEM.userLp, 1770143878117 * WAD, 1770136794740);
  }

  lemma RedeemOpenIs(s: State, env: Env, amount: u64, userLp: Key, worth: nat, redeemed: nat)
    requires WorthOf(s, env) == Ok(worth)
    requires LpShares.Redeemed(s.lpAmount, worth + s.accounts.poolLiquidity * WAD, amount) == Ok(redeemed)
    requires amount <= Balance(s.accounts.userLp, userLp) && amount <= s.accounts.lpSupply && amount <= s.lpAmount
    ensures RedeemOpen(s, env, amount, userLp).Ok?
    ensures RedeemOpen(s, env, amount, userLp).value.port.redeemAmount == redeemed
  {
  }

  lemma SmallPoolPays()
    ensures RedeemRun.Opening(SECOND, RATE_ONE, REDEEM).Ok?
    ensures RedeemRun.Completes(RedeemRun.Opening(SECOND, RATE_ONE, REDEEM).value, RATE_ONE)
  {
    SmallPoolRedeems();
    var o := RedeemRun.Opening(SECOND, RATE_ONE, REDEEM).value;
    var u := o.port.amountToUnroll;
    assert u == 1770136794740 && o.reservePercentage == 5 && o.portIterate == 1;
    SmallUnroll(u);
    assert o.accounts.collateral == 1770143878117;
  }

  lemma SmallUnroll(u: nat)
    requires u == 1770136794740
    ensures Unroll.Fits(WAD, 70, u, 1)
    ensures Unroll.Withdrawn(WAD, 70, u, 1) == u + 1 && Unroll.Repaid(WAD, 70, u, 0) == 0
  {
    assert Unroll.Withdrawal(WAD, u) == u + 1 && Unroll.Freed(WAD, u) == u + 1;
    assert Unroll.Level(WAD, 70, u, 0) == u;
    Unroll.RepaymentIsCeiling(70, u + 2);
  }

  lemma SmallPoolRuns()
    ensures Ready(FIRST) && Steps(FIRST, [DEPOSIT], 0) && Run(FIRST, RATE_ONE, [DEPOSIT]) == Ok(MINTED)
  {
    var steps := [DEPOSIT];
    SmallPoolOpens();
    SmallPoolTurns(FeesOf(steps));
    SmallPoolCloses();
    ClosingIff(FIRST, RATE_ONE, steps);
    DepositRunIff(FIRST, RATE_ONE, steps);
  }

  lemma SmallPoolIsPaid() returns (t: State)
    ensures RedeemRun.Ready(SECOND) && RedeemRun.Steps(SECOND, [REDEEM], 0) && Run(SECOND, RATE_ONE, [REDEEM]) == Ok(t)
    ensures Balance(t.accounts.userLiquidity, DEPOSIT.userLiquidity) == DEPOSIT.amount + 3
  {
    SmallPoolRedeems();
    SmallPoolPays();
    RedeemRun.OpeningIs(SECOND, RATE_ONE, REDEEM);
    RedeemRun.RedeemRunIff(SECOND, RATE_ONE, [REDEEM]);
    t := Run(SECOND, RATE_ONE, [REDEEM]).value;
    assert RedeemRun.Fee(0, 1770136794740) == 0;
  }

  /** A whole deposit of 1770136794737 units mints 749700 tokens, and the whole redemption of
      those tokens pays out three units more. */
  lemma DepositThenRedeemCanProfit() returns (c: Credits, r: State, t: State)
    ensures RoundTrip(FIRST, RATE_ONE, [DEPOSIT], MINTED, c, SECOND, REDEEM, r)
    ensures r.port.redeemAmount == DEPOSIT.amount + 3
    ensures RedeemRun.Ready(SECOND) && RedeemRun.Steps(SECOND, [REDEEM], 0) && Run(SECOND, RATE_ONE, [REDEEM]) == Ok(t)
    ensures Balance(t.accounts.userLiquidity, DEPOSIT.userLiquidity)
         == Balance(FIRST.accounts.userLiquidity, DEPOSIT.userLiquidity) + 3
  {
    SmallPoolRuns();
    c := EveryRunIsAccepted(FIRST, RATE_ONE, [DEPOSIT], MINTED);
    DepositMoves(FIRST, RATE_ONE, [DEPOSIT], MINTED, c);
    SmallPoolPays();
    SmallPoolRedeems();
    r := RedeemRun.Opening(SECOND, RATE_ONE, REDEEM).value;
    t := SmallPoolIsPaid();
  }

  /* A redemption of two steps with a real unroll, at a fee of one percent, that pays the user
     more than 99% of the exact worth of the tokens. */

  const BORROWED := State(255, 2_000_000_000_000, 100, 51, 2, 5, 1414451477871,
    NEW_PORT_STATE.(redeemVerified := 1, approvedWallet := Address(2), lastSoldSlot := 1),
    Accounts(0, 0, 0, 2236779001411, 1_000_000_000_000, 1414451477871, map[], map[Address(2) := 1414451477871]))
  const REDEEM_FIRST := Redeem(1219166090056, Address(1), Address(2))
  const REDEEM_LAST := Redeem(0, Address(1), Address(2))

  lemma BorrowedOpens()
    ensures RedeemRun.Opens(BORROWED, RATE_ONE, REDEEM_FIRST)
    ensures RedeemRun.PricedAssets(BORROWED, RATE_ONE) == 1236779001411 * WAD
    ensures var o := RedeemRun.Started(BORROWED, RATE_ONE, REDEEM_FIRST);
      o.port.redeemAmount == 1066023856600 && o.port.amountToUnroll == 1066023856600 && Continues(o)
  {
    LpShares.PayoutCanExceedWorth();
    assert RedeemRun.PricedAssets(BORROWED, RATE_ONE) == 1236779001411 * WAD;
    RedeemRun.PriceIs(BORROWED, 1236779001411 * WAD, 1219166090056);
  }

  lemma BorrowedUnrolls(u: nat)
    requires u == 1066023856600
    ensures Unroll.Fits(WAD, 70, u, 2)
    ensures Unroll.Withdrawn(WAD, 70, u, 2) == 1812240556224 && Unroll.Repaid(WAD, 70, u, 1) == 746216699622
  {
    LevelAtRateOne(u);
    assert Unroll.Level(WAD, 70, u, 0) == u;
    Unroll.RepaymentIsCeiling(70, u + 2);
    assert Unroll.Level(WAD, 70, u, 1) == 746216699622;
    LevelAtRateOne(746216699622);
    Unroll.RepaymentIsCeiling(70, 746216699622 + 2);
  }

  lemma LevelAtRateOne(u: nat)
    ensures LiquidityToCollateral(WAD, u) == u
    ensures Unroll.Withdrawal(WAD, u) == u + 1 && Unroll.Freed(WAD, u) == u + 1
  {
  }

  lemma BorrowedCompletes()
    ensures RedeemRun.Opens(BORROWED, RATE_ONE, REDEEM_FIRST)
    ensures RedeemRun.Completes(RedeemRun.Started(BORROWED, RATE_ONE, REDEEM_FIRST), RATE_ONE)
  {
    BorrowedOpens();
    BorrowedUnrolls(1066023856600);
  }

  lemma BorrowedRuns() returns (o: State, t: State)
    ensures Redemption.Accepted(BORROWED, RATE_ONE, [REDEEM_FIRST, REDEEM_LAST], o, t)
  {
    BorrowedCompletes();
    RedeemRun.RedeemRunIff(BORROWED, RATE_ONE, [REDEEM_FIRST, REDEEM_LAST]);
    t := Run(BORROWED, RATE_ONE, [REDEEM_FIRST, REDEEM_LAST]).value;
    o := Redemption.EveryRunIsAccepted(BORROWED, RATE_ONE, [REDEEM_FIRST, REDEEM_LAST], t);
  }

  lemma BorrowedReceives(t: State)
    requires Redemption.BurntAndPaid(BORROWED, t, 1219166090056, 1066023856600, Address(1))
    ensures Balance(t.accounts.userLiquidity, Address(1)) == 1055363618034
  {
    assert RedeemRun.Fee(100, 1066023856600) == 10660238566;
  }

  lemma NetNumbers()
    ensures Redemption.LessFee(100, 1219166090056 * (1236779001411 * WAD))
          < 1055363618034 * (10_000 * (1414451477871 * WAD))
  {
  }

  /** The run is accepted, and the user receives more than 99% of the worth of the tokens. */
  lemma NetPayoutCanExceedWorth() returns (o: State, t: State)
    ensures Redemption.Accepted(BORROWED, RATE_ONE, [REDEEM_FIRST, REDEEM_LAST], o, t)
    ensures RedeemRun.Payer(o) == 1 && o.port.amountToUnroll == 1066023856600
    ensures RedeemRun.PricedAssets(BORROWED, RATE_ONE) == 1236779001411 * WAD
    ensures var received := Balance(t.accounts.userLiquidity, REDEEM_LAST.userLiquidity);
      && received == 1055363618034
      && Redemption.LessFee(BORROWED.withdrawFeeBips, REDEEM_FIRST.amount * (1236779001411 * WAD))
         < received * (10_000 * (BORROWED.lpAmount * WAD))
  {
    o, t := BorrowedRuns();
    BorrowedOpens();
    Redemption.RunIsBurntAndPaid(BORROWED, RATE_ONE, [REDEEM_FIRST, REDEEM_LAST], o, t);
    BorrowedReceives(t);
    NetNumbers();
  }

  /* A deposit of two steps that fails at its last: too small for the rounding. */

  const QUARTER: Rate := 250_000_000_000_000_000
  const COARSE := Env(1, QUARTER, 75)
  const SOUND := State(255, 2_000_000_000_000, 0, 51, 2, 5, 1000,
    NEW_PORT_STATE.(depositVerified := 1, approvedWallet := Address(1), lastSoldSlot := 1),
    Accounts(0, 0, 0, 1000, 0, 1000, map[Address(1) := 2], map[Address(2) := 1000]))
  const SMALL_FIRST := Deposit(2, Address(1), Address(1), 0)
  const SMALL_LAST := Deposit(0, Address(1), Address(1), 0)

  lemma SoundOpens()
    ensures PositionValue(QUARTER, 1000, 0) == Ok(4000 * WAD)
    ensures PositionValue(QUARTER, 1000, 1) == Ok(3999 * WAD)
    ensures Opens(SOUND, COARSE, SMALL_FIRST)
  {
    assert PositionValue(QUARTER, 1000, 0) == Ok(4000 * WAD);
  }

  lemma SoundLevered(fees: seq<nat>)
    requires fees == [0, 0]
    ensures Collateralized(QUARTER, 70, 2, 2) == 0 && Loans(70, 2, 1) == 1 && Fees(fees, 1) == 0
  {
    assert Leverage.Amount(70, 2, 0) == 2 && Leverage.Amount(70, 2, 1) == 1;
    SoundDeposits();
    assert Collateralized(QUARTER, 70, 2, 1) == 0;
  }

  lemma SoundDeposits()
    ensures LiquidityToCollateral(QUARTER, 2) == 0 && LiquidityToCollateral(QUARTER, 1) == 0
  {
  }

  lemma SoundLoses(o: State, fees: seq<nat>)
    requires fees == [0, 0] && o.portIterate == 2 && o.reservePercentage == 5
    requires o.accounts.collateral == 1000 && o.accounts.debt == 0 && o.accounts.poolLiquidity == 2
    ensures WorthOf(Before(o, COARSE, 2, fees), COARSE) == Ok(3999 * WAD)
  {
    SoundLevered(fees);
    SoundOpens();
  }

  /** The first step is accepted; the position that was worth 4000 units is worth 3999 when
      the last step looks, and the run fails there. */
  lemma SmallDepositFailsAtItsClose()
    ensures var steps := [SMALL_FIRST, SMALL_LAST];
      && Ready(SOUND) && Steps(SOUND, steps, 0) && Opens(SOUND, COARSE, SMALL_FIRST)
      && Step(SOUND, COARSE, SMALL_FIRST, [SMALL_LAST]).Ok?
      && Run(SOUND, COARSE, steps).Err?
      && WorthOf(SOUND, COARSE) == Ok(4000 * WAD)
      && WorthOf(Before(Started(SOUND, COARSE, SMALL_FIRST), COARSE, 2, FeesOf(steps)), COARSE) == Ok(3999 * WAD)
  {
    var steps := [SMALL_FIRST, SMALL_LAST];
    var o := Started(SOUND, COARSE, SMALL_FIRST);
    SoundOpens();
    assert FeesOf(steps) == [0, 0];
    SoundLoses(o, FeesOf(steps));
    DepositRunIff(SOUND, COARSE, steps);
    OpeningIs(SOUND, COARSE, SMALL_FIRST);
    FirstStepIs(SOUND, COARSE, SMALL_FIRST, [SMALL_LAST]);
    FirstTurnIs(o, COARSE, steps);
  }

  /* The same pool at rate one, and a deposit of two steps that is accepted. */

  const HUNDRED_FIRST := Deposit(100, Address(1), Address(1), 0)
  const FUNDED := SOUND.(accounts := SOUND.accounts.(userLiquidity := map[Address(1) := 100]))

  lemma FundedOpens()
    ensures Opens(FUNDED, RATE_ONE, HUNDRED_FIRST)
    ensures Started(FUNDED, RATE_ONE, HUNDRED_FIRST).port.initPortLiquidity == 1000 * WAD
    ensures Started(FUNDED, RATE_ONE, HUNDRED_FIRST).port.userLiquidityPercentage == WAD
  {
    WorthAtRateOne(1000, 0);
    WholeShare(100);
  }

  lemma FundedLevered(fees: seq<nat>)
    requires fees == [0, 0]
    ensures Collateralized(WAD, 70, 100, 2) == 170 && Loans(70, 100, 1) == 70 && Fees(fees, 1) == 0
  {
    assert Leverage.Amount(70, 100, 0) == 100 && Leverage.Amount(70, 100, 1) == 70;
    LevelAtRateOne(100);
    LevelAtRateOne(70);
    assert Collateralized(WAD, 70, 100, 1) == 100;
  }

  lemma FundedCanClose(b: State)
    requires b.lpAmount == 1000 && b.port.initPortLiquidity == 1000 * WAD && b.port.userLiquidityPercentage == WAD
    requires b.accounts.collateral == 1170 && b.accounts.debt == 70
    ensures WorthOf(b, RATE_ONE) == Ok(1100 * WAD)
    ensures Gain(b, 1100 * WAD) == 100 && TokensFor(b, 1100 * WAD) == 100
    ensures CanClose(b, RATE_ONE)
  {
    assert WorthOf(b, RATE_ONE) == Ok(1100 * WAD);
    assert Gain(b, 1100 * WAD) == 100;
    assert 1000 * WAD * WAD / (1000 * WAD) == WAD;
  }

  lemma FundedTurned(fees: seq<nat>)
    requires fees == [0, 0]
    ensures Opens(FUNDED, RATE_ONE, HUNDRED_FIRST)
    ensures var b := Before(Started(FUNDED, RATE_ONE, HUNDRED_FIRST), RATE_ONE, 2, fees);
      && b.lpAmount == 1000 && b.port.initPortLiquidity == 1000 * WAD && b.port.userLiquidityPercentage == WAD
      && b.accounts.collateral == 1170 && b.accounts.debt == 70
  {
    FundedOpens();
    FundedLevered(fees);
  }

  lemma FundedSteps() returns (steps: seq<Instruction>)
    ensures steps == [HUNDRED_FIRST, SMALL_LAST] && Ready(FUNDED) && Steps(FUNDED, steps, 0)
    ensures FeesOf(steps) == [0, 0] && SaleAllows(FUNDED, RATE_ONE)
  {
    steps := [HUNDRED_FIRST, SMALL_LAST];
    assert FeesOf(steps) == [0, 0];
  }

  lemma FundedRuns(steps: seq<Instruction>)
    requires steps == [HUNDRED_FIRST, SMALL_LAST] && Ready(FUNDED) && Steps(FUNDED, steps, 0)
    requires FeesOf(steps) == [0, 0] && SaleAllows(FUNDED, RATE_ONE)
    ensures Run(FUNDED, RATE_ONE, steps).Ok?
  {
    FundedTurned(FeesOf(steps));
    FundedCanClose(Before(Started(FUNDED, RATE_ONE, HUNDRED_FIRST), RATE_ONE, 2, FeesOf(steps)));
    DepositRunIff(FUNDED, RATE_ONE, steps);
  }

  lemma FundedCredit(steps: seq<Instruction>, t: State, c: Credits)
    requires steps == [HUNDRED_FIRST, SMALL_LAST] && FeesOf(steps) == [0, 0]
    requires Accepted(FUNDED, RATE_ONE, steps, t, c)
    ensures c.gain == 100 && c.minted == 100
  {
    var b := Before(Started(FUNDED, RATE_ONE, HUNDRED_FIRST), RATE_ONE, 2, FeesOf(steps));
    FundedTurned(FeesOf(steps));
    FundedCanClose(b);
    ClosingIff(FUNDED, RATE_ONE, steps);
    CloseIff(b, RATE_ONE, Address(1), 100, 100);
  }

  /** Two steps, a loan in between, and one token for each unit. */
  lemma TwoStepDepositIsAccepted() returns (t: State, c: Credits)
    ensures Accepted(FUNDED, RATE_ONE, [HUNDRED_FIRST, SMALL_LAST], t, c)
    ensures c.gain == 100 && c.minted == 100
  {
    var steps := FundedSteps();
    FundedRuns(steps);
    t := Run(FUNDED, RATE_ONE, steps).value;
    c := EveryRunIsAccepted(FUNDED, RATE_ONE, steps, t);
    FundedCredit(steps, t, c);
  }

  /* A longer run on a position worth nothing that is accepted: the whole supply, out of the
     wallet. */

  const IDLE := State(255, 2_000_000_000_000, 0, 51, 2, 5, 1000,
    NEW_PORT_STATE.(redeemVerified := 1, approvedWallet := Address(2), lastSoldSlot := 1),
    Accounts(1000, 0, 0, 0, 0, 1000, map[], map[Address(2) := 1000]))
  const REDEEM_ALL := Redeem(1000, Address(1), Address(2))

  lemma IdleOpens()
    ensures RedeemRun.PricedAssets(IDLE, RATE_ONE) == 1000 * WAD && RedeemRun.Price(IDLE, 1000 * WAD) == WAD
    ensures RedeemRun.Opens(IDLE, RATE_ONE, REDEEM_ALL)
    ensures RedeemRun.Started(IDLE, RATE_ONE, REDEEM_ALL).port.amountToUnroll == 0
  {
    assert 1000 * WAD * WAD / (1000 * WAD) == WAD;
  }

  lemma WholeSupplyCanLeave()
    ensures RedeemRun.Ready(IDLE) && RedeemRun.Steps(IDLE, [REDEEM_ALL, REDEEM_LAST], 0)
    ensures PositionValue(WAD, IDLE.accounts.collateral, IDLE.accounts.debt) == Ok(0)
    ensures Run(IDLE, RATE_ONE, [REDEEM_ALL, REDEEM_LAST]).Ok?
  {
    IdleOpens();
    RedeemRun.RedeemRunIff(IDLE, RATE_ONE, [REDEEM_ALL, REDEEM_LAST]);
  }

  /* A pool from its creation: the first deposit in one transaction, and a redemption in
     another, at the last slot at which the first is recent enough. */

  const NEW_PARAMS := InitParams(2_000_000_000_000, 100, 1, 5, 51)
  const NEW := State(255, 2_000_000_000_000, 100, 51, 1, 5, 0, NEW_PORT_STATE,
    Accounts(0, 0, 0, 0, 0, 0, map[Address(1) := 100], map[]))
  const AT_TEN := Env(10, WAD, 75)
  const AT_SIXTY := Env(60, WAD, 75)
  const AT_SIXTY_ONE := Env(61, WAD, 75)
  const HUNDRED := Deposit(100, Address(1), Address(2), 0)
  const NINETY_NINE := Redeem(99, Address(1), Address(2))
  const HELD := State(255, 2_000_000_000_000, 100, 51, 1, 5, 100, NEW_PORT_STATE.(lastSoldSlot := 10),
    Accounts(0, 0, 0, 100, 0, 100, map[Address(1) := 0], map[Address(2) := 100]))

  lemma NewOpens(v: State)
    requires v == Approved.Approving(NEW, Depositing, Address(1))
    ensures Ready(v) && Opens(v, AT_TEN, HUNDRED) && SaleAllows(v, AT_TEN)
    ensures var o := Started(v, AT_TEN, HUNDRED);
      && o.port.initPortLiquidity == 0 && o.port.userLiquidityPercentage == WAD
      && o.accounts.userLiquidity == map[Address(1) := 0]
  {
    WorthAtRateOne(0, 0);
    WholeShare(100);
    assert map[Address(1) := 100][Address(1) := 0] == map[Address(1) := 0];
  }

  lemma NewCloses(b: State)
    requires b == HELD.(lpAmount := 0, port := b.port,
                        accounts := HELD.accounts.(lpSupply := 0, userLp := map[]))
    requires b.port.initPortLiquidity == 0 && b.port.userLiquidityPercentage == WAD && b.port.lastSoldSlot == 0
    ensures CreditsOf(b, AT_TEN) == Ok(Credits(100 * WAD, 100, 0, 100))
    ensures DepositClose(b, AT_TEN, Address(2)) == Ok(HELD)
  {
    WorthAtRateOne(100, 0);
    LpShares.MintedIs(0, 0, 100);
    assert CreditsOf(b, AT_TEN) == Ok(Credits(100 * WAD, 100, 0, 100));
    assert Credit(map[], Address(2), 100) == map[Address(2) := 100];
  }

  lemma NewTurns(o: State, fees: seq<nat>)
    requires fees == [0] && o.portIterate == 1 && o.reservePercentage == 5
    requires o.accounts == HELD.accounts.(collateral := 0, poolLiquidity := 100, lpSupply := 0, userLp := map[])
    ensures Before(o, AT_TEN, 1, fees).accounts == HELD.accounts.(lpSupply := 0, userLp := map[])
  {
    assert Leverage.Amount(70, 100, 0) == 100;
    LevelAtRateOne(100);
    assert Collateralized(WAD, 70, 100, 1) == 100;
  }

  lemma NewDeposits(v: State, steps: seq<Instruction>)
    requires v == Approved.Approving(NEW, Depositing, Address(1)) && steps == [HUNDRED]
    ensures Run(v, AT_TEN, steps) == Ok(HELD)
  {
    NewOpens(v);
    var o := Started(v, AT_TEN, HUNDRED);
    assert Steps(v, steps, 0) && FeesOf(steps) == [0];
    NewTurns(o, FeesOf(steps));
    NewCloses(Before(o, AT_TEN, 1, FeesOf(steps)));
    ClosingIff(v, AT_TEN, steps);
    DepositRunIff(v, AT_TEN, steps);
  }

  /** The first deposit into a pool that has just been created. */
  lemma FirstDeposit()
    ensures CreatePool(255, NEW_PARAMS, map[Address(1) := 100]) == Ok(NEW)
    ensures Run(NEW, AT_TEN, [VerifyDeposit, HUNDRED]) == Ok(HELD)
  {
    var steps := [HUNDRED];
    assert PoleOnly(steps) == steps by {
      assert steps[1..] == [];
    }
    assert [VerifyDeposit] + steps == [VerifyDeposit, HUNDRED];
    assert Approved.OneRun(Depositing, steps, 1);
    Approved.VerifiedRunIs(NEW, AT_TEN, Depositing, VerifyDeposit, steps);
    NewDeposits(Approved.Approving(NEW, Depositing, Address(1)), steps);
  }

  lemma HeldOpens(v: State)
    requires v == Approved.Approving(HELD, Redeeming, Address(2))
    ensures RedeemRun.Ready(v) && RedeemRun.Opens(v, AT_SIXTY, NINETY_NINE)
    ensures var o := RedeemRun.Started(v, AT_SIXTY, NINETY_NINE);
      && o.port.redeemAmount == 99 && o.port.amountToUnroll == 99
      && o.accounts.collateral == 100 && o.accounts.debt == 0 && o.accounts.poolLiquidity == 0
  {
    WorthAtRateOne(100, 0);
    assert RedeemRun.PricedAssets(v, AT_SIXTY) == 100 * WAD;
    TimesThenOver(WAD, 100 * WAD);
    assert WAD * (100 * WAD) == 100 * WAD * WAD;
    TimesThenOver(99, WAD);
  }

  lemma HeldCompletes(o: State)
    requires o.portIterate == 1 && o.reservePercentage == 5 && o.port.amountToUnroll == 99
    requires o.accounts.collateral == 100 && o.accounts.debt == 0
    ensures RedeemRun.Completes(o, AT_SIXTY)
  {
    LevelAtRateOne(99);
    assert Unroll.Level(WAD, 70, 99, 0) == 99;
    Unroll.RepaymentIsCeiling(70, 101);
    assert Unroll.Withdrawn(WAD, 70, 99, 1) == 100 && Unroll.Repaid(WAD, 70, 99, 0) == 0;
  }

  lemma HeldRedeems(v: State, steps: seq<Instruction>) returns (t: State)
    requires v == Approved.Approving(HELD, Redeeming, Address(2)) && steps == [NINETY_NINE]
    ensures Run(v, AT_SIXTY, steps) == Ok(t)
    ensures Redemption.BurntAndPaid(v, t, 99, 99, Address(1))
  {
    HeldOpens(v);
    HeldCompletes(RedeemRun.Started(v, AT_SIXTY, NINETY_NINE));
    assert RedeemRun.Steps(v, steps, 0);
    RedeemRun.RedeemRunIff(v, AT_SIXTY, steps);
    t := Run(v, AT_SIXTY, steps).value;
    Redemption.RunIsBurntAndPaid(v, AT_SIXTY, steps, RedeemRun.Started(v, AT_SIXTY, NINETY_NINE), t);
  }

  lemma OneRedemption(env: Env)
    ensures Run(HELD, env, [VerifyRedeem, NINETY_NINE])
         == Run(Approved.Approving(HELD, Redeeming, Address(2)), env, [NINETY_NINE])
  {
    var steps := [NINETY_NINE];
    assert PoleOnly(steps) == steps by {
      assert steps[1..] == [];
    }
    assert [VerifyRedeem] + steps == [VerifyRedeem, NINETY_NINE];
    assert Approved.OneRun(Redeeming, steps, 1);
    Approved.VerifiedRunIs(HELD, env, Redeeming, VerifyRedeem, steps);
  }

  /** Fifty slots after the deposit its tokens can be redeemed; one slot later not. */
  lemma RedeemedInTime() returns (t: State)
    ensures Run(HELD, AT_SIXTY, [VerifyRedeem, NINETY_NINE]) == Ok(t)
    ensures Balance(t.accounts.userLiquidity, Address(1)) == 98 && t.accounts.feeLiquidity == 1 && t.lpAmount == 1
    ensures Run(HELD, AT_SIXTY_ONE, [VerifyRedeem, NINETY_NINE]) == Err(PortNotSell)
  {
    var v := Approved.Approving(HELD, Redeeming, Address(2));
    OneRedemption(AT_SIXTY);
    t := HeldRedeems(v, [NINETY_NINE]);
    assert RedeemRun.Fee(100, 99) == 1;
    OneRedemption(AT_SIXTY_ONE);
    RefusedLate(v);
  }

  lemma RefusedLate(v: State)
    requires v == Approved.Approving(HELD, Redeeming, Address(2))
    ensures Run(v, AT_SIXTY_ONE, [NINETY_NINE]) == Err(PortNotSell)
  {
    assert RedeemGuard(v, AT_SIXTY_ONE, 99, Address(2)) == Fail(PortNotSell);
  }
}
