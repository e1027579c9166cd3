/** Whole redeem runs: exactly when the n guarded steps that follow an approved look-ahead
    succeed, and the state they leave, known in advance. */
module RedeemRun {
  import opened Wad
  import opened PortRate
  import opened Ledger
  import opened Plan
  import opened Unroll
  import opened Pool
  import opened UnrollRun
  import LpShares

  /** The state an accepted look-ahead leaves: nothing pending but the redeem flag. */
  predicate Ready(s: State) {
    && 1 <= s.portIterate && ConfigValid(s) && s.lpAmount == s.accounts.lpSupply
    && s.port == s.port.Reset().(redeemVerified := 1, approvedWallet := s.port.approvedWallet)
  }

  /** The steps left from leverage k on: all by the approved wallet, only step 0 with an
      amount. */
  predicate Steps(s: State, steps: seq<Instruction>, k: nat) {
    && k + |steps| == s.portIterate
    && forall i | 0 <= i < |steps| ::
         && steps[i].Redeem? && steps[i].userLp == s.port.approvedWallet
         && (0 < steps[i].amount <==> k + i == 0)
  }

  /** A redemption needs a sale, at most 50 slots old. */
  predicate SaleAllows(s: State, env: Env) {
    s.port.lastSoldSlot <= env.slot <= s.port.lastSoldSlot + 50
  }

  /** The fee, rounded up; it never exceeds the payout it is taken from. */
  function Fee(bips: nat, amount: nat): nat {
    (bips * BIPS * amount + WAD - 1) / WAD
  }

  lemma FeeAffordable(bips: nat, amount: nat)
    requires bips <= 255 && amount < U64_LIMIT
    ensures WithdrawFee(bips, amount) == Ok(Fee(bips, amount))
    ensures Fee(bips, amount) <= amount
    ensures bips * amount <= 10_000 * Fee(bips, amount) < bips * amount + 10_000
  {
    var x := bips * amount;
    assert bips * BIPS * amount == x * BIPS by {
      assert bips * BIPS * amount == bips * amount * BIPS;
    }
    MulMonotone(bips, 255, amount);
  }

  /** The accounts after a payout of `amount` to `user`. */
  function Paid(a: Accounts, bips: nat, amount: nat, user: Key): Accounts
    requires amount <= a.poolLiquidity && Fee(bips, amount) <= amount
  {
    a.(poolLiquidity := a.poolLiquidity - amount,
       feeLiquidity := a.feeLiquidity + Fee(bips, amount),
       userLiquidity := Credit(a.userLiquidity, user, amount - Fee(bips, amount)))
  }

  /** The payout succeeds if and only if the wallet holds the redeemed amount. */
  lemma PayoutIff(s: State, user: Key)
    requires s.withdrawFeeBips <= 255 && s.port.redeemAmount < U64_LIMIT
    ensures RedeemPay(s, user).Ok? <==> s.port.redeemAmount <= s.accounts.poolLiquidity
    ensures RedeemPay(s, user).Ok? ==>
      && Fee(s.withdrawFeeBips, s.port.redeemAmount) <= s.port.redeemAmount
      && RedeemPay(s, user).value
         == s.(accounts := Paid(s.accounts, s.withdrawFeeBips, s.port.redeemAmount, user),
               port := s.port.(isRedeemed := 1))
  {
    FeeAffordable(s.withdrawFeeBips, s.port.redeemAmount);
  }

  /** A state in the middle of a run, before step k. */
  predicate Midway(s: State, k: nat) {
    && 1 <= k == s.port.leverage < s.portIterate && ConfigValid(s) && s.lpAmount == s.accounts.lpSupply
    && s.port.redeemVerified == 1 && s.port.depositVerified == 0 && s.port.isRedeemed <= 1
    && s.port.redeemAmount < U64_LIMIT
  }

  /** The guards of a later step come down to freshness and `Continues`. */
  lemma LaterGuard(s: State, env: Env, k: nat, ins: Instruction)
    requires Midway(s, k) && ins.Redeem? && ins.amount == 0 && ins.userLp == s.port.approvedWallet
    ensures RedeemGuard(s, env, ins.amount, ins.userLp).Pass?
       <==> SaleAllows(s, env) && Continues(s)
  {
  }

  /** After the payout the remaining steps only count. */
  lemma {:induction false} PaidSteps(s: State, env: Env, k: nat, steps: seq<Instruction>)
    requires Midway(s, k) && s.port.isRedeemed == 1 && Steps(s, steps, k)
    ensures Run(s, env, steps).Ok? <==> SaleAllows(s, env) && Continues(s)
    ensures Run(s, env, steps).Ok? ==> Run(s, env, steps).value == s.(port := s.port.Reset())
    decreases |steps|
  {
    LaterGuard(s, env, k, steps[0]);
    var r := Step(s, env, steps[0], steps[1..]);
    if r.Ok? {
      if k + 1 == s.portIterate {
        assert steps[1..] == [];
      } else {
        assert r.value == s.(port := s.port.(leverage := k + 1));
        PaidSteps(r.value, env, k + 1, steps[1..]);
      }
    }
  }

  /** The unroll still to be done from leverage k on, on the pool's own figures. */
  function Remaining(s: State, env: Env, k: nat): Result<Accounts>
    requires k <= s.portIterate
  {
    var percent :- CheckedSub(env.ltv, s.reservePercentage);
    UnrollFrom(s.accounts, env.rate, percent, s.portIterate, k, s.port.amountToUnroll)
  }

  predicate Funded(s: State, env: Env, k: nat)
    requires k <= s.portIterate
  {
    Remaining(s, env, k).Ok? && s.port.redeemAmount <= Remaining(s, env, k).value.poolLiquidity
  }

  /** One later step of a run that has not paid yet. */
  lemma UnpaidStep(s: State, env: Env, k: nat, ins: Instruction, rest: seq<Instruction>)
    requires Midway(s, k) && s.port.isRedeemed == 0
    requires ins.Redeem? && ins.amount == 0 && ins.userLp == s.port.approvedWallet
    requires SaleAllows(s, env) && Continues(s)
    ensures var percent := env.ltv - s.reservePercentage;
      var r := Step(s, env, ins, rest);
      && (env.ltv < s.reservePercentage ==> r.Err?)
      && (s.reservePercentage <= env.ltv ==>
            var a := UnrollStep(s.accounts, env.rate, percent, s.portIterate, k, s.port.amountToUnroll);
            && (r.Ok? <==> a.Ok? && (k + 1 == s.portIterate ==> s.port.redeemAmount <= a.value.poolLiquidity))
            && (r.Ok? && k + 1 < s.portIterate ==>
                  r.value == s.(accounts := a.value, port := s.port.(leverage := k + 1)))
            && (r.Ok? && k + 1 == s.portIterate ==>
                  && Fee(s.withdrawFeeBips, s.port.redeemAmount) <= s.port.redeemAmount
                  && r.value == s.(accounts := Paid(a.value, s.withdrawFeeBips, s.port.redeemAmount, ins.userLiquidity),
                                   port := s.port.Reset())))
  {
    LaterGuard(s, env, k, ins);
    if s.reservePercentage <= env.ltv {
      var a := UnrollStep(s.accounts, env.rate, env.ltv - s.reservePercentage, s.portIterate, k, s.port.amountToUnroll);
      assert RedeemUnroll(s, env) == if a.Ok? then Ok(s.(accounts := a.value)) else Err(a.error);
      if a.Ok? {
        PayoutIff(s.(accounts := a.value), ins.userLiquidity);
      }
    }
  }

  /** The remaining unroll is the next step and then the rest of it. */
  lemma RemainingAfter(s: State, env: Env, k: nat, a: Accounts)
    requires k < s.portIterate && s.reservePercentage <= env.ltv
    requires UnrollStep(s.accounts, env.rate, env.ltv - s.reservePercentage, s.portIterate, k, s.port.amountToUnroll)
          == Ok(a)
    ensures k + 1 == s.portIterate ==> Remaining(s, env, k) == Ok(a)
    ensures Remaining(s, env, k)
         == Remaining(s.(accounts := a, port := s.port.(leverage := k + 1)), env, k + 1)
  {
    UnrollFromStep(s.accounts, env.rate, env.ltv - s.reservePercentage, s.portIterate, k, s.port.amountToUnroll, a);
  }

  /** What a run that has not paid before step k comes to. */
  predicate ComesTo(s: State, env: Env, k: nat, user: Key, r: Result<State>)
    requires k <= s.portIterate
  {
    && (r.Ok? <==> Funded(s, env, k))
    && (r.Ok? ==>
          && Fee(s.withdrawFeeBips, s.port.redeemAmount) <= s.port.redeemAmount
          && r.value == s.(accounts := Paid(Remaining(s, env, k).value, s.withdrawFeeBips, s.port.redeemAmount, user),
                           port := s.port.Reset()))
  }

  lemma ComesToBefore(s: State, env: Env, k: nat, a: Accounts, user: Key, r: Result<State>)
    requires k < s.portIterate
    requires var next := s.(accounts := a, port := s.port.(leverage := k + 1));
      Remaining(s, env, k) == Remaining(next, env, k + 1) && ComesTo(next, env, k + 1, user, r)
    ensures ComesTo(s, env, k, user, r)
  {
  }

  /** Until the payout, the remaining steps unroll and the last of them pays. */
  lemma {:induction false} UnpaidSteps(s: State, env: Env, k: nat, steps: seq<Instruction>)
    requires Midway(s, k) && s.port.isRedeemed == 0 && Steps(s, steps, k)
    requires SaleAllows(s, env) && Continues(s)
    ensures ComesTo(s, env, k, steps[|steps| - 1].userLiquidity, Run(s, env, steps))
    decreases |steps|, 1
  {
    UnpaidStep(s, env, k, steps[0], steps[1..]);
    if s.reservePercentage <= env.ltv {
      var a := UnrollStep(s.accounts, env.rate, env.ltv - s.reservePercentage, s.portIterate, k, s.port.amountToUnroll);
      if a.Ok? {
        RemainingAfter(s, env, k, a.value);
        if k + 1 < s.portIterate {
          UnpaidTail(s, env, k, steps, a.value);
        } else {
          assert steps[1..] == [];
        }
      }
    }
  }

  lemma {:induction false} UnpaidTail(s: State, env: Env, k: nat, steps: seq<Instruction>, a: Accounts)
    requires Midway(s, k) && s.port.isRedeemed == 0 && Steps(s, steps, k) && k + 1 < s.portIterate
    requires SaleAllows(s, env) && Continues(s) && a.lpSupply == s.lpAmount
    requires var next := s.(accounts := a, port := s.port.(leverage := k + 1));
      Remaining(s, env, k) == Remaining(next, env, k + 1) && Step(s, env, steps[0], steps[1..]) == Ok(next)
    ensures ComesTo(s, env, k, steps[|steps| - 1].userLiquidity, Run(s, env, steps))
    decreases |steps|, 0
  {
    var next := s.(accounts := a, port := s.port.(leverage := k + 1));
    UnpaidSteps(next, env, k + 1, steps[1..]);
    assert Run(s, env, steps) == Run(next, env, steps[1..]);
    ComesToBefore(s, env, k, a, steps[|steps| - 1].userLiquidity, Run(s, env, steps));
  }

  /** An opening as the first step leaves it. */
  predicate Opened(o: State) {
    && 1 <= o.portIterate && ConfigValid(o) && o.lpAmount == o.accounts.lpSupply
    && o.port.leverage == 0 && o.port.redeemVerified == 1 && o.port.depositVerified == 0 && o.port.isRedeemed == 0
    && o.port.redeemAmount < U64_LIMIT
    && o.port.redeemAmount <= o.accounts.poolLiquidity + o.port.amountToUnroll
  }

  /** The state once the first step has priced and burnt the tokens. */
  function Opening(s: State, env: Env, ins: Instruction): Result<State>
    requires ins.Redeem?
  {
    RedeemOpen(s, env, ins.amount, ins.userLp)
  }

  /** The scaled price of a token: what is redeemed is divided by it. */
  function Price(s: State, assets: nat): nat {
    if assets == 0 || s.lpAmount == 0 then WAD else s.lpAmount * WAD * WAD / assets
  }

  /** What the pool is priced at: the worth of its position and its wallet. */
  function PricedAssets(s: State, env: Env): nat
    requires PositionValue(env.rate, s.accounts.collateral, s.accounts.debt).Ok?
  {
    PositionValue(env.rate, s.accounts.collateral, s.accounts.debt).value + s.accounts.poolLiquidity * WAD
  }

  /** When the first step of a redemption opens a run: the position has a worth, the price
      is not rounded to nothing, the payout fits u64 and the tokens are there to burn. */
  predicate Opens(s: State, env: Env, ins: Instruction)
    requires ins.Redeem?
  {
    && PositionValue(env.rate, s.accounts.collateral, s.accounts.debt).Ok?
    && (var price := Price(s, PricedAssets(s, env)); 0 < price && ins.amount * WAD / price < U64_LIMIT)
    && ins.amount <= Balance(s.accounts.userLp, ins.userLp)
    && ins.amount <= s.lpAmount
  }

  /** The opened run: the tokens are burnt, worth and payout are recorded. */
  function Started(s: State, env: Env, ins: Instruction): State
    requires ins.Redeem? && Opens(s, env, ins)
  {
    var wallet := s.accounts.poolLiquidity;
    var redeemed := ins.amount * WAD / Price(s, PricedAssets(s, env));
    s.(lpAmount := s.lpAmount - ins.amount,
       accounts := s.accounts.(lpSupply := s.lpAmount - ins.amount,
         userLp := s.accounts.userLp[ins.userLp := Balance(s.accounts.userLp, ins.userLp) - ins.amount]),
       port := s.port.(
         initPortLiquidity := PositionValue(env.rate, s.accounts.collateral, s.accounts.debt).value,
         redeemAmount := redeemed,
         amountToUnroll := if wallet < redeemed then redeemed - wallet else 0))
  }

  lemma PriceIs(s: State, assets: nat, amount: nat)
    requires amount < U64_LIMIT
    ensures var price := Price(s, assets);
      && LpShares.ExchangeRate(s.lpAmount, assets) == Ok(price)
      && LpShares.Redeemed(s.lpAmount, assets, amount)
         == if price == 0 || U64_LIMIT <= amount * WAD / price then Err(MathFailure) else Ok(amount * WAD / price)
  {
    var price := Price(s, assets);
    if price != 0 {
      LpShares.NestedFloor(amount, WAD, price);
    }
  }

  /** The opening, exactly. */
  lemma OpeningIs(s: State, env: Env, ins: Instruction)
    requires Ready(s) && ins.Redeem?
    ensures Opening(s, env, ins).Ok? <==> Opens(s, env, ins)
    ensures Opens(s, env, ins) ==> Opening(s, env, ins) == Ok(Started(s, env, ins))
  {
    if PositionValue(env.rate, s.accounts.collateral, s.accounts.debt).Ok? {
      PriceIs(s, PricedAssets(s, env), ins.amount);
    }
  }

  lemma OpeningFacts(s: State, env: Env, ins: Instruction)
    requires Ready(s) && ins.Redeem? && Opens(s, env, ins)
    ensures var o := Started(s, env, ins);
      && Opened(o)
      && LpShares.Redeemed(s.lpAmount, PricedAssets(s, env), ins.amount) == Ok(o.port.redeemAmount)
      && LpShares.ExchangeRate(s.lpAmount, PricedAssets(s, env)) == Ok(Price(s, PricedAssets(s, env)))
  {
    PriceIs(s, PricedAssets(s, env), ins.amount);
  }

  /** The first step is the opening, then the payout or the first turn of an unroll. */
  lemma FirstStepIs(s: State, env: Env, ins: Instruction, rest: seq<Instruction>)
    requires Ready(s) && ins.Redeem? && 0 < ins.amount && ins.userLp == s.port.approvedWallet
    ensures Step(s, env, ins, rest).Ok? ==> SaleAllows(s, env) && Opens(s, env, ins)
    ensures SaleAllows(s, env) && Opens(s, env, ins) ==>
      Step(s, env, ins, rest) == AfterOpening(Started(s, env, ins), env, ins.userLiquidity)
  {
    OpeningIs(s, env, ins);
    if SaleAllows(s, env) && Opens(s, env, ins) {
      assert RedeemGuard(s, env, ins.amount, ins.userLp).Pass?;
    }
  }

  function AfterOpening(o: State, env: Env, user: Key): Result<State> {
    var unrolled :- RedeemUnroll(o, env);
    var worked :- if o.portIterate == 1 || o.port.amountToUnroll == 0 then RedeemPay(unrolled, user) else Ok(unrolled);
    var advanced := worked.port.(leverage := 1);
    Ok(worked.(port := if o.portIterate == 1 then advanced.Reset() else advanced))
  }

  /** Exactly when an opened redemption is completed by the steps that remain. */
  predicate Completes(o: State, env: Env) {
    && 1 <= o.portIterate
    && (o.portIterate == 1 || Continues(o))
    && (o.port.amountToUnroll != 0 ==>
        && o.reservePercentage <= env.ltv
        && Fits(env.rate, env.ltv - o.reservePercentage, o.port.amountToUnroll, o.portIterate)
        && Covers(o.accounts, env.rate, env.ltv - o.reservePercentage, o.port.amountToUnroll,
                  o.portIterate, o.portIterate - 1))
  }

  /** The accounts just before the payout. */
  function BeforePayout(o: State, env: Env): Accounts
    requires Completes(o, env)
  {
    if o.port.amountToUnroll == 0 then o.accounts
    else Unrolled(o.accounts, env.rate, env.ltv - o.reservePercentage, o.portIterate, o.port.amountToUnroll)
  }

  /** The step that pays: the first when nothing has to be unrolled, else the last. */
  function Payer(o: State): nat
    requires 1 <= o.portIterate
  {
    if o.port.amountToUnroll == 0 then 0 else o.portIterate - 1
  }

  /** The rest of a run after its opening. */
  function Rest(o: State, env: Env, steps: seq<Instruction>): Result<State>
    requires 0 < |steps| && steps[0].Redeem?
  {
    var t :- AfterOpening(o, env, steps[0].userLiquidity);
    Run(t, env, steps[1..])
  }

  /** A run that completes its opening exactly when it should, and with the right result. */
  predicate CompletedBy(o: State, env: Env, user: Key, r: Result<State>) {
    && (r.Ok? <==> Completes(o, env))
    && (r.Ok? ==>
          && o.port.redeemAmount <= BeforePayout(o, env).poolLiquidity
          && Fee(o.withdrawFeeBips, o.port.redeemAmount) <= o.port.redeemAmount
          && r.value == o.(accounts := Paid(BeforePayout(o, env), o.withdrawFeeBips, o.port.redeemAmount, user),
                           port := o.port.Reset()))
  }

  lemma NothingToUnroll(o: State, env: Env, steps: seq<Instruction>)
    requires Opened(o) && o.port.amountToUnroll == 0 && Steps(o, steps, 0)
    requires SaleAllows(o, env)
    ensures CompletedBy(o, env, steps[0].userLiquidity, Rest(o, env, steps))
  {
    PayoutIff(o, steps[0].userLiquidity);
    var t := AfterOpening(o, env, steps[0].userLiquidity).value;
    if o.portIterate == 1 {
      assert steps[1..] == [];
    } else {
      PaidSteps(t, env, 1, steps[1..]);
    }
  }

  /** The unroll of an opening, from its first step, in closed form. */
  lemma WholeUnroll(o: State, env: Env)
    requires Opened(o) && o.port.amountToUnroll != 0
    ensures Remaining(o, env, 0).Ok? && (o.portIterate == 1 || Continues(o)) <==> Completes(o, env)
    ensures Completes(o, env) ==> Remaining(o, env, 0).Ok? && Remaining(o, env, 0).value == BeforePayout(o, env)
    ensures Completes(o, env) ==> o.port.redeemAmount <= BeforePayout(o, env).poolLiquidity
  {
    if o.reservePercentage <= env.ltv {
      UnrollSucceedsIff(o.accounts, env.rate, env.ltv - o.reservePercentage, o.portIterate, o.port.amountToUnroll);
    }
  }

  /** An unroll whose first turn already fails cannot complete. */
  lemma NoFirstTurn(o: State, env: Env, user: Key)
    requires Opened(o) && o.port.amountToUnroll != 0
    requires RedeemUnroll(o, env).Err?
    ensures AfterOpening(o, env, user).Err? && !Completes(o, env)
  {
    WholeUnroll(o, env);
  }

  lemma SingleTurn(o: State, env: Env, a: Accounts, steps: seq<Instruction>)
    requires Opened(o) && o.port.amountToUnroll != 0 && o.portIterate == 1 && Steps(o, steps, 0)
    requires RedeemUnroll(o, env) == Ok(o.(accounts := a)) && Remaining(o, env, 0) == Ok(a)
    ensures CompletedBy(o, env, steps[0].userLiquidity, Rest(o, env, steps))
  {
    WholeUnroll(o, env);
    PayoutIff(o.(accounts := a), steps[0].userLiquidity);
    assert steps[1..] == [];
  }

  lemma SomethingToUnroll(o: State, env: Env, steps: seq<Instruction>)
    requires Opened(o) && o.port.amountToUnroll != 0 && Steps(o, steps, 0)
    requires SaleAllows(o, env)
    ensures CompletedBy(o, env, steps[o.portIterate - 1].userLiquidity, Rest(o, env, steps))
  {
    if RedeemUnroll(o, env).Err? {
      NoFirstTurn(o, env, steps[0].userLiquidity);
    } else {
      var a := RedeemUnroll(o, env).value.accounts;
      RemainingAfter(o, env, 0, a);
      if o.portIterate == 1 {
        SingleTurn(o, env, a, steps);
      } else {
        FirstTurn(o, env, a, steps);
        Assemble(o, env, a, steps);
      }
    }
  }

  lemma Assemble(o: State, env: Env, a: Accounts, steps: seq<Instruction>)
    requires Opened(o) && o.port.amountToUnroll != 0 && 1 < o.portIterate && Steps(o, steps, 0)
    requires var t := o.(accounts := a, port := o.port.(leverage := 1));
      && AfterOpening(o, env, steps[0].userLiquidity) == Ok(t)
      && Remaining(t, env, 1) == Remaining(o, env, 0)
      && (!Continues(o) ==> Run(t, env, steps[1..]).Err?)
      && (Continues(o) ==> ComesTo(t, env, 1, steps[o.portIterate - 1].userLiquidity, Run(t, env, steps[1..])))
    ensures CompletedBy(o, env, steps[o.portIterate - 1].userLiquidity, Rest(o, env, steps))
  {
    WholeUnroll(o, env);
  }

  /** After the first turn of a longer unroll, the later steps decide. */
  lemma FirstTurn(o: State, env: Env, a: Accounts, steps: seq<Instruction>)
    requires Opened(o) && o.port.amountToUnroll != 0 && 1 < o.portIterate && Steps(o, steps, 0)
    requires SaleAllows(o, env) && o.reservePercentage <= env.ltv
    requires UnrollStep(o.accounts, env.rate, env.ltv - o.reservePercentage, o.portIterate, 0, o.port.amountToUnroll)
          == Ok(a)
    ensures var t := o.(accounts := a, port := o.port.(leverage := 1));
      && AfterOpening(o, env, steps[0].userLiquidity) == Ok(t)
      && a.lpSupply == o.lpAmount
      && (!Continues(o) ==> Run(t, env, steps[1..]).Err?)
      && (Continues(o) ==> ComesTo(t, env, 1, steps[o.portIterate - 1].userLiquidity, Run(t, env, steps[1..])))
  {
    var t := o.(accounts := a, port := o.port.(leverage := 1));
    var rest := steps[1..];
    assert rest[|rest| - 1] == steps[o.portIterate - 1];
    LaterGuard(t, env, 1, rest[0]);
    if Continues(o) {
      UnpaidSteps(t, env, 1, rest);
    }
  }

  /** A whole redeem run, for every pool and every amount: it succeeds if and only if the
      sale is fresh, the opening succeeds, and the position covers the unroll; it then
      burns the amount once, pays the redeemed amount once, and clears the run's state. */
  lemma RedeemRunIff(s: State, env: Env, steps: seq<Instruction>)
    requires Ready(s) && Steps(s, steps, 0)
    ensures Run(s, env, steps).Ok? <==>
            (SaleAllows(s, env) && Opens(s, env, steps[0])
             && Completes(Started(s, env, steps[0]), env))
    ensures Run(s, env, steps).Ok? ==>
      var o := Started(s, env, steps[0]);
      && Opening(s, env, steps[0]) == Ok(o)
      && CompletedBy(o, env, steps[Payer(o)].userLiquidity, Run(s, env, steps))
  {
    FirstStepIs(s, env, steps[0], steps[1..]);
    OpeningIs(s, env, steps[0]);
    if SaleAllows(s, env) && Opens(s, env, steps[0]) {
      OpeningFacts(s, env, steps[0]);
      var o := Started(s, env, steps[0]);
      assert Run(s, env, steps) == Rest(o, env, steps);
      if o.port.amountToUnroll == 0 {
        NothingToUnroll(o, env, steps);
      } else {
        SomethingToUnroll(o, env, steps);
      }
    }
  }

  /** Whether the amounts of an unroll are small: the amount with its roundings, and the
      collateral it converts to, are u64 numbers. */
  predicate SmallUnroll(o: State, env: Env) {
    var most := o.port.amountToUnroll + o.portIterate * (WAD / env.rate + 1);
    most < 0x1_0000_0000_0000_0000 && most * env.rate / WAD + 1 < 0x1_0000_0000_0000_0000
  }

  lemma CoveredCompletes(o: State, env: Env)
    requires 1 <= o.portIterate && o.reservePercentage <= env.ltv <= 100 && SmallUnroll(o, env)
    requires o.portIterate == 1 || Continues(o)
    requires Covers(o.accounts, env.rate, env.ltv - o.reservePercentage, o.port.amountToUnroll,
                    o.portIterate, o.portIterate - 1)
    ensures Completes(o, env)
  {
    SmallAmountsFit(env.rate, env.ltv - o.reservePercentage, o.port.amountToUnroll, o.portIterate);
  }

  /** Enough for success: a small redemption from a position that covers its unroll. */
  lemma CoveredRedemptionSucceeds(s: State, env: Env, steps: seq<Instruction>)
    requires Ready(s) && Steps(s, steps, 0) && s.reservePercentage <= env.ltv <= 100
    requires SaleAllows(s, env) && Opens(s, env, steps[0]) && SmallUnroll(Started(s, env, steps[0]), env)
    requires s.portIterate == 1 || Continues(Started(s, env, steps[0]))
    requires var o := Started(s, env, steps[0]);
      Covers(o.accounts, env.rate, env.ltv - s.reservePercentage, o.port.amountToUnroll,
             s.portIterate, s.portIterate - 1)
    ensures Run(s, env, steps).Ok?
  {
    CoveredCompletes(Started(s, env, steps[0]), env);
    RedeemRunIff(s, env, steps);
  }

  /** A longer run on a position worth nothing, where the recorded worth doubles as a flag:
      it is stopped at its second step unless it burns the whole supply. */
  lemma WorthlessRunStops(s: State, env: Env, steps: seq<Instruction>)
    requires Ready(s) && Steps(s, steps, 0) && 1 < s.portIterate
    requires PositionValue(env.rate, s.accounts.collateral, s.accounts.debt) == Ok(0)
    ensures Run(s, env, steps).Ok? ==> steps[0].amount == s.lpAmount
    ensures Step(s, env, steps[0], steps[1..]).Ok? && steps[0].amount != s.lpAmount ==>
      Step(Step(s, env, steps[0], steps[1..]).value, env, steps[1], steps[2..]).Err?
  {
    RedeemRunIff(s, env, steps);
    FirstStepIs(s, env, steps[0], steps[1..]);
    if Step(s, env, steps[0], steps[1..]).Ok? && steps[0].amount != s.lpAmount {
      OpeningFacts(s, env, steps[0]);
      var o := Started(s, env, steps[0]);
      StopsAfterOpening(o, env, steps[0].userLiquidity, steps[1], steps[2..]);
    }
  }

  lemma StopsAfterOpening(o: State, env: Env, user: Key, ins: Instruction, rest: seq<Instruction>)
    requires Opened(o) && 1 < o.portIterate && !Continues(o) && AfterOpening(o, env, user).Ok?
    requires ins.Redeem? && ins.amount == 0 && ins.userLp == o.port.approvedWallet
    ensures Step(AfterOpening(o, env, user).value, env, ins, rest).Err?
  {
    var m := AfterOpening(o, env, user).value;
    assert m.port.leverage == 1 && !Continues(m);
    assert !PortValid(m);
  }
}
