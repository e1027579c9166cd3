/** Whole deposit runs: exactly when the n guarded steps that follow an approved look-ahead
    succeed, and what they leave behind. */
module DepositRun {
  import opened Wad
  import opened PortRate
  import opened Ledger
  import opened Plan
  import opened Pool
  import opened LeverageRun
  import LpShares
  import Share

  /** The state an accepted look-ahead leaves: nothing pending but the deposit flag. */
  predicate Ready(s: State) {
    && 1 <= s.portIterate && ConfigValid(s) && s.lpAmount == s.accounts.lpSupply
    && s.liquidityCap < U64_LIMIT
    && s.port == s.port.Reset().(depositVerified := 1, approvedWallet := s.port.approvedWallet)
  }

  /** The steps left from leverage k on: all by the approved wallet, only step 0 with an
      amount. */
  predicate Steps(s: State, steps: seq<Instruction>, k: nat) {
    && k + |steps| == s.portIterate
    && forall i | 0 <= i < |steps| ::
         && steps[i].Deposit? && steps[i].userLiquidity == s.port.approvedWallet
         && (0 < steps[i].amount <==> k + i == 0)
  }

  function FeesOf(steps: seq<Instruction>): (fees: seq<nat>)
    requires forall i | 0 <= i < |steps| :: steps[i].Deposit?
    ensures |fees| == |steps| && forall i | 0 <= i < |steps| :: fees[i] == steps[i].borrowFee
  {
    seq(|steps|, i requires 0 <= i < |steps| => steps[i].borrowFee)
  }

  /** A deposit needs a sale at most 50 slots old, unless nothing was recorded yet. */
  predicate SaleAllows(s: State, env: Env) {
    s.port.lastSoldSlot == 0 || s.port.lastSoldSlot <= env.slot <= s.port.lastSoldSlot + 50
  }

  /** An opened deposit: the amount is in the wallet and the starting worth is recorded. */
  predicate Opened(o: State) {
    && 1 <= o.portIterate && ConfigValid(o) && o.lpAmount == o.accounts.lpSupply
    && o.port.leverage == 0 && o.port.depositVerified == 1 && o.port.redeemVerified == 0 && o.port.isRedeemed == 0
  }

  /** The state before step k of a run opened as o, and after the last turn for k == n. */
  function Before(o: State, env: Env, k: nat, fees: seq<nat>): State
    requires k <= o.portIterate <= |fees| && 1 <= o.portIterate && o.reservePercentage <= env.ltv
  {
    o.(accounts := Levered(o.accounts, env.rate, env.ltv - o.reservePercentage, o.portIterate, k, fees),
       port := o.port.(leverage := k))
  }

  lemma TurnOn(s: State, env: Env, userLp: Key, fee: nat, a: Accounts)
    requires s.reservePercentage <= env.ltv
    requires LeverageStep(s.accounts, env.rate, env.ltv - s.reservePercentage, s.portIterate, s.port.leverage, fee)
          == Ok(a)
    ensures var next := s.(accounts := a, port := s.port.(leverage := s.port.leverage + 1));
      DepositTurn(s, env, userLp, fee)
      == if s.port.leverage + 1 == s.portIterate then DepositClose(next, env, userLp) else Ok(next)
  {
  }

  /** One turn of an opened run. */
  lemma TurnIs(o: State, env: Env, k: nat, fees: seq<nat>, userLp: Key)
    requires Opened(o) && k < o.portIterate <= |fees| && o.reservePercentage <= env.ltv
    ensures DepositTurn(Before(o, env, k, fees), env, userLp, fees[k])
         == if k + 1 == o.portIterate then DepositClose(Before(o, env, k + 1, fees), env, userLp)
            else Ok(Before(o, env, k + 1, fees))
  {
    var s, next := Before(o, env, k, fees), Before(o, env, k + 1, fees);
    LeveredStep(o.accounts, env.rate, env.ltv - o.reservePercentage, o.portIterate, k + 1, fees, s.accounts);
    TurnOn(s, env, userLp, fees[k], next.accounts);
  }

  lemma LaterGuard(o: State, env: Env, k: nat, fees: seq<nat>, ins: Instruction)
    requires Opened(o) && 1 <= k < o.portIterate <= |fees|
    requires o.reservePercentage <= env.ltv && SaleAllows(o, env)
    requires ins.Deposit? && ins.amount == 0 && ins.userLiquidity == o.port.approvedWallet
    ensures DepositGuard(Before(o, env, k, fees), env, ins.amount, ins.userLiquidity)
         == if Continues(o) then Pass else Fail(InvalidPoolState)
  {
  }

  lemma LaterStep(o: State, env: Env, k: nat, fees: seq<nat>, ins: Instruction, rest: seq<Instruction>)
    requires Opened(o) && 1 <= k < o.portIterate <= |fees|
    requires o.reservePercentage <= env.ltv && SaleAllows(o, env)
    requires ins.Deposit? && ins.amount == 0 && ins.userLiquidity == o.port.approvedWallet && ins.borrowFee == fees[k]
    ensures Step(Before(o, env, k, fees), env, ins, rest)
         == if !Continues(o) then Err(InvalidPoolState)
            else if k + 1 == o.portIterate then DepositClose(Before(o, env, k + 1, fees), env, ins.userLp)
            else Ok(Before(o, env, k + 1, fees))
  {
    TurnIs(o, env, k, fees, ins.userLp);
    LaterGuard(o, env, k, fees, ins);
  }

  lemma {:induction false} LaterSteps(o: State, env: Env, k: nat, fees: seq<nat>, steps: seq<Instruction>)
    requires Opened(o) && 1 <= k < o.portIterate == |fees| && Steps(o, steps, k)
    requires o.reservePercentage <= env.ltv && SaleAllows(o, env) && Continues(o)
    requires forall i | 0 <= i < |steps| :: steps[i].borrowFee == fees[k + i]
    ensures Run(Before(o, env, k, fees), env, steps)
         == DepositClose(Before(o, env, o.portIterate, fees), env, steps[|steps| - 1].userLp)
    decreases |steps|
  {
    LaterStep(o, env, k, fees, steps[0], steps[1..]);
    if k + 1 == o.portIterate {
      assert steps[1..] == [];
    } else {
      LaterSteps(o, env, k + 1, fees, steps[1..]);
    }
  }

  function Opening(s: State, env: Env, ins: Instruction): Result<State>
    requires ins.Deposit?
  {
    DepositOpen(s, env, ins.amount, ins.userLiquidity)
  }

  /** When the first step of a deposit opens a run. */
  predicate Opens(s: State, env: Env, ins: Instruction)
    requires ins.Deposit?
  {
    var worth := PositionValue(env.rate, s.accounts.collateral, s.accounts.debt);
    && worth.Ok?
    && worth.value + (ins.amount + s.accounts.poolLiquidity) * WAD < s.liquidityCap * WAD
    && ins.amount <= Balance(s.accounts.userLiquidity, ins.userLiquidity)
  }

  /** The opened run: the amount is in the wallet, worth and share are recorded. */
  function Started(s: State, env: Env, ins: Instruction): State
    requires ins.Deposit? && 0 < ins.amount && Opens(s, env, ins)
  {
    var total := ins.amount + s.accounts.poolLiquidity;
    s.(accounts := s.accounts.(poolLiquidity := total,
         userLiquidity := s.accounts.userLiquidity[ins.userLiquidity :=
           Balance(s.accounts.userLiquidity, ins.userLiquidity) - ins.amount]),
       port := s.port.(
         initPortLiquidity := PositionValue(env.rate, s.accounts.collateral, s.accounts.debt).value,
         userLiquidityPercentage := ins.amount * WAD / total))
  }

  /** The opening, exactly. The cap makes the unchecked sum of the first step exact. */
  lemma OpeningIs(s: State, env: Env, ins: Instruction)
    requires Ready(s) && ins.Deposit? && 0 < ins.amount
    ensures Opening(s, env, ins).Ok? <==> Opens(s, env, ins)
    ensures Opens(s, env, ins) ==>
      && Opening(s, env, ins) == Ok(Started(s, env, ins))
      && ins.amount + s.accounts.poolLiquidity < s.liquidityCap
      && WrappingAdd(ins.amount, s.accounts.poolLiquidity) == ins.amount + s.accounts.poolLiquidity
      && Opened(Started(s, env, ins))
  {
    if Opens(s, env, ins) {
      var total := ins.amount + s.accounts.poolLiquidity;
      assert total < s.liquidityCap;
      Share.WholeShare(ins.amount, total, WAD);
    }
  }

  /* The close. */

  function WorthOf(s: State, env: Env): Result<nat> {
    PositionValue(env.rate, s.accounts.collateral, s.accounts.debt)
  }

  /** What a position that is now worth `after` credits to the depositor. */
  function Gain(s: State, after: nat): nat
    requires s.port.initPortLiquidity <= after
  {
    (after - s.port.initPortLiquidity) * s.port.userLiquidityPercentage / WAD / WAD
  }

  function TokensFor(s: State, after: nat): nat
    requires s.port.initPortLiquidity <= after
  {
    LpShares.Tokens(s.lpAmount, after - Gain(s, after) * WAD, Gain(s, after))
  }

  /** When the last step can credit and mint: the position has a worth, no smaller than
      when the run began, and the tokens and their sum with the others fit u64. */
  predicate CanClose(s: State, env: Env) {
    && WorthOf(s, env).Ok?
    && s.port.initPortLiquidity <= WorthOf(s, env).value
    && s.lpAmount + TokensFor(s, WorthOf(s, env).value) < U64_LIMIT
  }

  /** What the turns of a run of `amount`, `total` with the idle liquidity, bring about. */
  predicate Turned(s: State, env: Env, amount: nat, total: nat) {
    && 0 < amount <= total && amount < U64_LIMIT
    && s.accounts.poolLiquidity == 0
    && s.port.userLiquidityPercentage == amount * WAD / total
    && (WorthOf(s, env).Ok? ==> WorthOf(s, env).value <= s.port.initPortLiquidity + total * WAD)
  }

  lemma GainBounds(s: State, env: Env, amount: nat, total: nat, after: nat)
    requires Turned(s, env, amount, total) && WorthOf(s, env) == Ok(after) && s.port.initPortLiquidity <= after
    ensures Gain(s, after) <= amount
    ensures s.port.initPortLiquidity <= after - Gain(s, after) * WAD
  {
    var rise := after - s.port.initPortLiquidity;
    Share.ShareAtMost(amount, total, WAD, rise);
    Share.ShareWithinRise(amount, total, WAD, rise);
  }

  /** The close, exactly. The share never asks for more than the worth, so of all its
      checks only these can fail. */
  lemma CloseIff(s: State, env: Env, userLp: Key, amount: nat, total: nat)
    requires Turned(s, env, amount, total)
    ensures DepositClose(s, env, userLp).Ok? <==> CanClose(s, env)
    ensures CanClose(s, env) ==>
      var after := WorthOf(s, env).value;
      && Gain(s, after) * WAD <= after
      && CreditsOf(s, env)
         == Ok(Credits(after, Gain(s, after), after - Gain(s, after) * WAD, TokensFor(s, after)))
  {
    if WorthOf(s, env).Ok? && s.port.initPortLiquidity <= WorthOf(s, env).value {
      var after := WorthOf(s, env).value;
      GainBounds(s, env, amount, total, after);
      LpShares.MintedIs(s.lpAmount, after - Gain(s, after) * WAD, Gain(s, after));
    }
  }

  /** The close of the run, on the accounts the whole leverage leaves. */
  function Closing(o: State, env: Env, steps: seq<Instruction>): Result<State>
    requires Steps(o, steps, 0) && 1 <= o.portIterate && o.reservePercentage <= env.ltv
  {
    DepositClose(Before(o, env, o.portIterate, FeesOf(steps)), env, steps[o.portIterate - 1].userLp)
  }

  /** The position is worth at most the deposit and the idle liquidity more than before. */
  lemma RiseAtMost(o: State, env: Env, fees: seq<nat>)
    requires 1 <= o.portIterate <= |fees| && o.reservePercentage <= env.ltv
    requires WorthOf(o, env) == Ok(o.port.initPortLiquidity)
    ensures var b := Before(o, env, o.portIterate, fees);
      WorthOf(b, env).Ok? ==> WorthOf(b, env).value <= o.port.initPortLiquidity + o.accounts.poolLiquidity * WAD
  {
    var b := Before(o, env, o.portIterate, fees);
    LeverageConserves(o.accounts, env.rate, env.ltv - o.reservePercentage, o.portIterate, o.portIterate, fees);
    assert 0 <= Fees(fees, o.portIterate - 1) * env.rate;
    ValueRise(env.rate, o.accounts.collateral, o.accounts.debt, b.accounts.collateral, b.accounts.debt,
              o.accounts.poolLiquidity);
  }

  /** What a run may cost the position, in units of 1/rate of a scaled unit: its fees, one
      unit of collateral per step, and the rounding of the worth. */
  function Cost(rate: Rate, fees: seq<nat>, n: nat): nat
    requires 1 <= n <= |fees|
  {
    WAD * (Fees(fees, n - 1) * rate + n * WAD) + rate
  }

  /** The position rises by all that went in, but for that cost. */
  lemma RiseAtLeast(o: State, env: Env, fees: seq<nat>)
    requires 1 <= o.portIterate <= |fees| && o.reservePercentage <= env.ltv
    requires WorthOf(o, env) == Ok(o.port.initPortLiquidity)
    ensures var b := Before(o, env, o.portIterate, fees);
      WorthOf(b, env).Ok? ==>
        o.accounts.poolLiquidity * WAD * env.rate
        <= (WorthOf(b, env).value - o.port.initPortLiquidity) * env.rate + Cost(env.rate, fees, o.portIterate)
  {
    var b := Before(o, env, o.portIterate, fees);
    LeverageConserves(o.accounts, env.rate, env.ltv - o.reservePercentage, o.portIterate, o.portIterate, fees);
    if WorthOf(b, env).Ok? {
      WorthRises(o.accounts, b.accounts, env.rate, Fees(fees, o.portIterate - 1) * env.rate + o.portIterate * WAD);
    }
  }

  lemma WorthRises(a: Accounts, b: Accounts, rate: Rate, lost: nat)
    requires PositionValue(rate, a.collateral, a.debt).Ok? && PositionValue(rate, b.collateral, b.debt).Ok?
    requires b.poolLiquidity == 0 && Assets(a, rate) - Assets(b, rate) <= lost
    ensures var (worth, after) :=
        (PositionValue(rate, a.collateral, a.debt).value, PositionValue(rate, b.collateral, b.debt).value);
      a.poolLiquidity * WAD * rate <= (after - worth) * rate + WAD * lost + rate
  {
    DivBounds(a.collateral * WAD * WAD, rate);
    DivBounds(b.collateral * WAD * WAD, rate);
    RiseScaled(a.collateral, a.debt, b.collateral, b.debt, a.poolLiquidity, WAD, rate, lost,
               a.collateral * WAD * WAD / rate, b.collateral * WAD * WAD / rate);
  }

  lemma RiseScaled(c0: nat, d0: nat, c1: nat, d1: nat, total: nat, w: nat, rate: Rate, lost: nat, v0: nat, v1: nat)
    requires c0 * w - d0 * rate + total * rate - (c1 * w - d1 * rate) <= lost
    requires v0 * rate <= c0 * w * w && c1 * w * w <= v1 * rate + rate
    ensures total * w * rate <= ((v1 - d1 * w) - (v0 - d0 * w)) * rate + w * lost + rate
  {
    MulMonotone(c0 * w - d0 * rate + total * rate - (c1 * w - d1 * rate), lost, w);
    assert (c0 * w - d0 * rate + total * rate - (c1 * w - d1 * rate)) * w
        == c0 * w * w - d0 * w * rate + total * w * rate - c1 * w * w + d1 * w * rate;
    assert ((v1 - d1 * w) - (v0 - d0 * w)) * rate == v1 * rate - d1 * w * rate - v0 * rate + d0 * w * rate;
  }

  /** What the deposit must bring for the close not to fail: as long as it outweighs the
      borrow fees and one unit of collateral per step, the position is worth no less than
      when the run began. */
  lemma EnoughPaidIn(o: State, env: Env, fees: seq<nat>)
    requires 1 <= o.portIterate <= |fees| && o.reservePercentage <= env.ltv
    requires WorthOf(o, env) == Ok(o.port.initPortLiquidity)
    requires Fees(fees, o.portIterate - 1) * env.rate + o.portIterate * WAD <= o.accounts.poolLiquidity * env.rate
    ensures var b := Before(o, env, o.portIterate, fees);
      WorthOf(b, env).Ok? && o.port.initPortLiquidity <= WorthOf(b, env).value
  {
    var b := Before(o, env, o.portIterate, fees);
    LeverageConserves(o.accounts, env.rate, env.ltv - o.reservePercentage, o.portIterate, o.portIterate, fees);
    ValueRiseScaled(WAD, env.rate, b.accounts.collateral, b.accounts.debt, o.accounts.collateral, o.accounts.debt, 0);
  }

  lemma ClosingIff(s: State, env: Env, steps: seq<Instruction>)
    requires Ready(s) && Steps(s, steps, 0) && s.reservePercentage <= env.ltv && Opens(s, env, steps[0])
    ensures var o := Started(s, env, steps[0]);
      var b := Before(o, env, o.portIterate, FeesOf(steps));
      && Turned(b, env, steps[0].amount, steps[0].amount + s.accounts.poolLiquidity)
      && (Closing(o, env, steps).Ok? <==> CanClose(b, env))
  {
    var o := Started(s, env, steps[0]);
    var b := Before(o, env, o.portIterate, FeesOf(steps));
    RiseAtMost(o, env, FeesOf(steps));
    CloseIff(b, env, steps[o.portIterate - 1].userLp, steps[0].amount, steps[0].amount + s.accounts.poolLiquidity);
  }

  /** An opened deposit is completed by its run exactly when all of this holds. */
  predicate Completes(o: State, env: Env, steps: seq<Instruction>)
    requires Steps(o, steps, 0)
  {
    && 1 <= o.portIterate && o.reservePercentage <= env.ltv
    && (o.portIterate == 1 || Continues(o))
    && CanClose(Before(o, env, o.portIterate, FeesOf(steps)), env)
  }

  lemma FirstStepIs(s: State, env: Env, ins: Instruction, rest: seq<Instruction>)
    requires Ready(s) && ins.Deposit? && 0 < ins.amount && ins.userLiquidity == s.port.approvedWallet
    ensures Step(s, env, ins, rest).Ok? ==>
      SaleAllows(s, env) && Opening(s, env, ins).Ok? && s.reservePercentage <= env.ltv
    ensures SaleAllows(s, env) && Opening(s, env, ins).Ok? && s.reservePercentage <= env.ltv ==>
      Step(s, env, ins, rest) == DepositTurn(Opening(s, env, ins).value, env, ins.userLp, ins.borrowFee)
  {
    if SaleAllows(s, env) && Opening(s, env, ins).Ok? && s.reservePercentage <= env.ltv {
      OpeningIs(s, env, ins);
      assert DepositGuard(s, env, ins.amount, ins.userLiquidity).Pass?;
    }
  }

  lemma FirstTurnIs(o: State, env: Env, steps: seq<Instruction>)
    requires Opened(o) && Steps(o, steps, 0) && o.reservePercentage <= env.ltv
    ensures DepositTurn(o, env, steps[0].userLp, steps[0].borrowFee)
         == if o.portIterate == 1 then Closing(o, env, steps) else Ok(Before(o, env, 1, FeesOf(steps)))
  {
    TurnIs(o, env, 0, FeesOf(steps), steps[0].userLp);
    assert Before(o, env, 0, FeesOf(steps)) == o;
  }

  /** A run that goes on with an empty record of its starting worth is stopped. */
  lemma StoppedWithoutWorth(o: State, env: Env, steps: seq<Instruction>)
    requires Opened(o) && 1 < o.portIterate && Steps(o, steps, 0)
    requires o.reservePercentage <= env.ltv && SaleAllows(o, env) && !Continues(o)
    ensures Run(Before(o, env, 1, FeesOf(steps)), env, steps[1..]).Err?
  {
    LaterStep(o, env, 1, FeesOf(steps), steps[1], steps[2..]);
    assert steps[1..][0] == steps[1] && steps[1..][1..] == steps[2..];
  }

  lemma RestOfRun(o: State, env: Env, steps: seq<Instruction>)
    requires Opened(o) && Steps(o, steps, 0) && o.reservePercentage <= env.ltv && SaleAllows(o, env)
    ensures var r := DepositTurn(o, env, steps[0].userLp, steps[0].borrowFee);
      r.Ok? && Run(r.value, env, steps[1..]).Ok?
      <==> (o.portIterate == 1 || Continues(o)) && Closing(o, env, steps).Ok?
    ensures (o.portIterate == 1 || Continues(o)) && Closing(o, env, steps).Ok? ==>
      Run(DepositTurn(o, env, steps[0].userLp, steps[0].borrowFee).value, env, steps[1..]) == Closing(o, env, steps)
  {
    FirstTurnIs(o, env, steps);
    if o.portIterate == 1 {
      assert steps[1..] == [];
    } else if Continues(o) {
      LaterSteps(o, env, 1, FeesOf(steps), steps[1..]);
    } else {
      StoppedWithoutWorth(o, env, steps);
    }
  }

  /** A whole deposit run, for every pool and every amount: it succeeds if and only if the
      sale is fresh, the opening and the close can succeed and a longer run has recorded its
      starting worth; it ends as the close says. */
  lemma DepositRunIff(s: State, env: Env, steps: seq<Instruction>)
    requires Ready(s) && Steps(s, steps, 0)
    ensures Run(s, env, steps).Ok? <==>
            (SaleAllows(s, env) && Opens(s, env, steps[0])
             && Completes(Started(s, env, steps[0]), env, steps))
    ensures Run(s, env, steps).Ok? ==>
      && Opening(s, env, steps[0]) == Ok(Started(s, env, steps[0]))
      && Run(s, env, steps) == Closing(Started(s, env, steps[0]), env, steps)
  {
    FirstStepIs(s, env, steps[0], steps[1..]);
    OpeningIs(s, env, steps[0]);
    if SaleAllows(s, env) && Opens(s, env, steps[0]) && s.reservePercentage <= env.ltv {
      RestOfRun(Started(s, env, steps[0]), env, steps);
      ClosingIff(s, env, steps);
    }
  }

  /** What is left of the close when enough was paid in. */
  lemma EnoughCloses(s: State, env: Env, steps: seq<Instruction>)
    requires Ready(s) && Steps(s, steps, 0) && s.reservePercentage <= env.ltv && Opens(s, env, steps[0])
    requires Fees(FeesOf(steps), s.portIterate - 1) * env.rate + s.portIterate * WAD
          <= (steps[0].amount + s.accounts.poolLiquidity) * env.rate
    ensures var b := Before(Started(s, env, steps[0]), env, s.portIterate, FeesOf(steps));
      && WorthOf(b, env).Ok? && b.port.initPortLiquidity <= WorthOf(b, env).value
      && (CanClose(b, env) <==> s.lpAmount + TokensFor(b, WorthOf(b, env).value) < U64_LIMIT)
      && (s.lpAmount == 0 ==> CanClose(b, env))
  {
    var o := Started(s, env, steps[0]);
    var b := Before(o, env, s.portIterate, FeesOf(steps));
    EnoughPaidIn(o, env, FeesOf(steps));
    ClosingIff(s, env, steps);
    GainBounds(b, env, steps[0].amount, steps[0].amount + s.accounts.poolLiquidity, WorthOf(b, env).value);
  }

  /** Enough for success: a fresh sale, an opening below the cap, a recorded worth, a deposit
      that outweighs the fees and one unit of collateral per step, and tokens that fit, as
      they always do for the first depositor. */
  lemma EnoughSucceeds(s: State, env: Env, steps: seq<Instruction>)
    requires Ready(s) && Steps(s, steps, 0) && s.reservePercentage <= env.ltv
    requires SaleAllows(s, env) && Opens(s, env, steps[0])
    requires s.portIterate == 1 || Continues(Started(s, env, steps[0]))
    requires Fees(FeesOf(steps), s.portIterate - 1) * env.rate + s.portIterate * WAD
          <= (steps[0].amount + s.accounts.poolLiquidity) * env.rate
    ensures var b := Before(Started(s, env, steps[0]), env, s.portIterate, FeesOf(steps));
      && WorthOf(b, env).Ok? && b.port.initPortLiquidity <= WorthOf(b, env).value
      && (Run(s, env, steps).Ok? <==> s.lpAmount + TokensFor(b, WorthOf(b, env).value) < U64_LIMIT)
      && (s.lpAmount == 0 ==> Run(s, env, steps).Ok?)
  {
    EnoughCloses(s, env, steps);
    DepositRunIff(s, env, steps);
  }

  /** A longer run on a position worth nothing, where the recorded worth doubles as a flag:
      with LP tokens outstanding it is stopped at its second step. */
  lemma WorthlessRunStops(s: State, env: Env, steps: seq<Instruction>)
    requires Ready(s) && Steps(s, steps, 0) && 1 < s.portIterate && 0 < s.lpAmount
    requires WorthOf(s, env) == Ok(0)
    ensures Run(s, env, steps).Err?
    ensures Step(s, env, steps[0], steps[1..]).Ok? ==>
      Step(Step(s, env, steps[0], steps[1..]).value, env, steps[1], steps[2..]) == Err(InvalidPoolState)
  {
    DepositRunIff(s, env, steps);
    FirstStepIs(s, env, steps[0], steps[1..]);
    OpeningIs(s, env, steps[0]);
    if Step(s, env, steps[0], steps[1..]).Ok? {
      var o := Started(s, env, steps[0]);
      FirstTurnIs(o, env, steps);
      LaterStep(o, env, 1, FeesOf(steps), steps[1], steps[2..]);
    }
  }
}
