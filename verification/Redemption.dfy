/** What a completed redemption did: when it burnt and when it paid, what it cost the pool,
    and what it left to the other holders. */
module Redemption {
  import opened Wad
  import opened PortRate
  import opened Ledger
  import opened Plan
  import opened Unroll
  import opened Pool
  import opened UnrollRun
  import opened RedeemRun
  import opened Atomicity
  import LpShares

  /** A redeem run accepted from s with the result t; o is the run once it is opened. */
  predicate Accepted(s: State, env: Env, steps: seq<Instruction>, o: State, t: State) {
    && Ready(s) && Steps(s, steps, 0) && Run(s, env, steps) == Ok(t)
    && Opens(s, env, steps[0]) && o == Started(s, env, steps[0])
  }

  /** Every run that succeeds is accepted from its opening. */
  lemma EveryRunIsAccepted(s: State, env: Env, steps: seq<Instruction>, t: State) returns (o: State)
    requires Ready(s) && Steps(s, steps, 0) && Run(s, env, steps) == Ok(t)
    ensures Accepted(s, env, steps, o, t)
  {
    RedeemRunIff(s, env, steps);
    o := Started(s, env, steps[0]);
  }

  /** From s to t, `burnt` tokens left the approved wallet, the mint and the record, and the
      fee and one user were paid, together exactly `redeemed`; no other wallet moved. */
  predicate BurntAndPaid(s: State, t: State, burnt: nat, redeemed: nat, user: Key) {
    && t.lpAmount == s.lpAmount - burnt == t.accounts.lpSupply
    && burnt <= Balance(s.accounts.userLp, s.port.approvedWallet)
    && t.accounts.userLp
       == s.accounts.userLp[s.port.approvedWallet := Balance(s.accounts.userLp, s.port.approvedWallet) - burnt]
    && Fee(s.withdrawFeeBips, redeemed) <= redeemed
    && t.accounts.feeLiquidity == s.accounts.feeLiquidity + Fee(s.withdrawFeeBips, redeemed)
    && t.accounts.userLiquidity == Credit(s.accounts.userLiquidity, user, redeemed - Fee(s.withdrawFeeBips, redeemed))
    && t.port == s.port.Reset()
  }

  lemma PayoutBurntAndPaid(s: State, o: State, b: Accounts, burnt: nat, user: Key)
    requires burnt <= s.lpAmount && burnt <= Balance(s.accounts.userLp, s.port.approvedWallet)
    requires o.lpAmount == s.lpAmount - burnt == o.accounts.lpSupply
    requires o.accounts == s.accounts.(lpSupply := o.accounts.lpSupply, userLp :=
        s.accounts.userLp[s.port.approvedWallet := Balance(s.accounts.userLp, s.port.approvedWallet) - burnt])
    requires b == o.accounts.(collateral := b.collateral, debt := b.debt, poolLiquidity := b.poolLiquidity)
    requires o.port.redeemAmount <= b.poolLiquidity
    requires Fee(s.withdrawFeeBips, o.port.redeemAmount) <= o.port.redeemAmount
    ensures var paid := Paid(b, s.withdrawFeeBips, o.port.redeemAmount, user);
      BurntAndPaid(s, o.(accounts := paid, port := s.port.Reset()), burnt, o.port.redeemAmount, user)
  {
  }

  lemma BeforePayoutKeeps(o: State, env: Env)
    requires Completes(o, env)
    ensures var b := BeforePayout(o, env);
      b == o.accounts.(collateral := b.collateral, debt := b.debt, poolLiquidity := b.poolLiquidity)
  {
  }

  /** What a step after the first moves, from m to x: never the tokens; nothing at all once
      the run has paid; and, but for the last step, no wallet of a user nor the fee's. */
  predicate MovesLate(m: State, x: State) {
    && x.portIterate == m.portIterate
    && x.lpAmount == m.lpAmount && x.accounts.lpSupply == m.accounts.lpSupply && x.accounts.userLp == m.accounts.userLp
    && (m.port.isRedeemed == 1 ==> x.accounts == m.accounts)
    && (m.port.leverage + 1 < m.portIterate ==>
          && x.port.leverage == m.port.leverage + 1 && x.port.isRedeemed == m.port.isRedeemed
          && x.accounts.feeLiquidity == m.accounts.feeLiquidity
          && x.accounts.userLiquidity == m.accounts.userLiquidity)
  }

  lemma LaterStepMoves(m: State, env: Env, ins: Instruction, rest: seq<Instruction>)
    requires ins.Redeem? && 0 < m.port.leverage && Step(m, env, ins, rest).Ok?
    ensures MovesLate(m, Step(m, env, ins, rest).value)
  {
  }

  /** The state m of a run before step i, for 1 <= i < n. */
  predicate InRun(s: State, o: State, m: State, i: nat) {
    && m.portIterate == s.portIterate && m.port.leverage == i
    && m.lpAmount == o.lpAmount && m.accounts.lpSupply == o.lpAmount && m.accounts.userLp == o.accounts.userLp
    && 1 <= o.portIterate
    && m.port.isRedeemed == (if Payer(o) < i then 1 else 0)
    && (i <= Payer(o) ==>
          m.accounts.feeLiquidity == s.accounts.feeLiquidity && m.accounts.userLiquidity == s.accounts.userLiquidity)
  }

  lemma AfterFirst(s: State, env: Env, steps: seq<Instruction>, o: State, t: State)
    requires Accepted(s, env, steps, o, t) && 1 < s.portIterate
    ensures After(s, env, steps, 1).Ok? && InRun(s, o, After(s, env, steps, 1).value, 1)
  {
    RunGoesOn(s, env, steps, 1);
    assert After(s, env, steps, 1) == Step(s, env, steps[0], steps[1..]) by {
      assert After(s, env, steps, 0) == Ok(s);
    }
    FirstStepIs(s, env, steps[0], steps[1..]);
    OpeningFacts(s, env, steps[0]);
    OpenedMoves(o, env, steps[0].userLiquidity);
  }

  lemma OpenedMoves(o: State, env: Env, user: Key)
    requires Opened(o) && 1 < o.portIterate && AfterOpening(o, env, user).Ok?
    ensures var m := AfterOpening(o, env, user).value;
      && m.portIterate == o.portIterate && m.port.leverage == 1
      && m.lpAmount == o.lpAmount && m.accounts.lpSupply == o.lpAmount && m.accounts.userLp == o.accounts.userLp
      && m.port.isRedeemed == (if o.port.amountToUnroll == 0 then 1 else 0)
      && (o.port.amountToUnroll != 0 ==>
            m.accounts.feeLiquidity == o.accounts.feeLiquidity && m.accounts.userLiquidity == o.accounts.userLiquidity)
  {
  }

  lemma StaysInRun(s: State, o: State, m: State, x: State, i: nat)
    requires 1 < i < s.portIterate && o.portIterate == s.portIterate
    requires InRun(s, o, m, i - 1) && MovesLate(m, x)
    ensures InRun(s, o, x, i)
  {
  }

  predicate InRunAfter(s: State, env: Env, steps: seq<Instruction>, o: State, i: nat) {
    i <= |steps| && After(s, env, steps, i).Ok? && InRun(s, o, After(s, env, steps, i).value, i)
  }

  lemma NextInRun(s: State, env: Env, steps: seq<Instruction>, o: State, i: nat)
    requires Steps(s, steps, 0) && o.portIterate == s.portIterate && 1 < i < s.portIterate
    requires InRunAfter(s, env, steps, o, i - 1) && After(s, env, steps, i).Ok?
    ensures InRunAfter(s, env, steps, o, i)
  {
    var m, x := After(s, env, steps, i - 1).value, After(s, env, steps, i).value;
    LaterStepMoves(m, env, steps[i - 1], steps[i..]);
    StaysInRun(s, o, m, x, i);
  }

  lemma {:induction false} InRunThroughout(s: State, env: Env, steps: seq<Instruction>, o: State, i: nat)
    requires 1 <= i && InRunAfter(s, env, steps, o, 1)
    requires forall k | 1 < k <= i && InRunAfter(s, env, steps, o, k - 1) :: InRunAfter(s, env, steps, o, k)
    ensures InRunAfter(s, env, steps, o, i)
  {
    if i == 1 {
    } else {
      InRunThroughout(s, env, steps, o, i - 1);
    }
  }

  lemma AfterLater(s: State, env: Env, steps: seq<Instruction>, o: State, t: State, i: nat)
    requires Accepted(s, env, steps, o, t) && 1 <= i < s.portIterate
    ensures InRunAfter(s, env, steps, o, i)
  {
    AfterFirst(s, env, steps, o, t);
    forall k | 1 < k <= i && InRunAfter(s, env, steps, o, k - 1)
      ensures InRunAfter(s, env, steps, o, k)
    {
      RunGoesOn(s, env, steps, k);
      NextInRun(s, env, steps, o, k);
    }
    InRunThroughout(s, env, steps, o, i);
  }

  /** Nothing moves once the run has paid. */
  lemma {:induction false} PaidIsFinal(s: State, env: Env, steps: seq<Instruction>, o: State, t: State, i: nat)
    requires Accepted(s, env, steps, o, t) && Payer(o) < i <= s.portIterate
    ensures After(s, env, steps, i).Ok? && After(s, env, steps, i).value.accounts == t.accounts
    decreases s.portIterate - i
  {
    RunGoesOn(s, env, steps, i);
    if i == s.portIterate {
      assert steps[i..] == [];
    } else {
      AfterLater(s, env, steps, o, t, i);
      PaidIsFinal(s, env, steps, o, t, i + 1);
      LaterStepMoves(After(s, env, steps, i).value, env, steps[i], steps[i + 1..]);
    }
  }

  /** The tokens and wallets of a run at point i, with `payer` the step that pays: the tokens
      are the first state's before step 0 and the last state's ever after; the fee's and the
      users' wallets are the first state's up to the paying step and, like all accounts, the
      last state's after it; the flag goes up there and is cleared at the end. */
  predicate BurnsAndPaysAt(s: State, t: State, m: State, payer: nat, i: nat) {
    && (i == 0 ==> m == s)
    && (1 <= i ==> m.lpAmount == t.lpAmount && m.accounts.lpSupply == t.accounts.lpSupply
                   && m.accounts.userLp == t.accounts.userLp)
    && (i <= payer ==> m.port.isRedeemed == 0 && m.accounts.feeLiquidity == s.accounts.feeLiquidity
                       && m.accounts.userLiquidity == s.accounts.userLiquidity)
    && (payer < i ==> m.accounts == t.accounts && (m.port.isRedeemed == 1 <==> i < s.portIterate))
  }

  lemma PointInside(s: State, o: State, t: State, m: State, i: nat)
    requires 1 <= i < s.portIterate && InRun(s, o, m, i)
    requires o.lpAmount == t.lpAmount == t.accounts.lpSupply && o.accounts.userLp == t.accounts.userLp
    requires Payer(o) < i ==> m.accounts == t.accounts
    ensures BurnsAndPaysAt(s, t, m, Payer(o), i)
  {
  }

  lemma Inside(s: State, env: Env, steps: seq<Instruction>, o: State, t: State, i: nat)
    requires Accepted(s, env, steps, o, t) && 1 <= i < s.portIterate
    requires BurntAndPaid(s, t, steps[0].amount, o.port.redeemAmount, steps[Payer(o)].userLiquidity)
    ensures After(s, env, steps, i).Ok?
    ensures BurnsAndPaysAt(s, t, After(s, env, steps, i).value, Payer(o), i)
  {
    StartedBurns(s, env, steps[0]);
    AfterLater(s, env, steps, o, t, i);
    if Payer(o) < i {
      PaidIsFinal(s, env, steps, o, t, i);
    }
    PointInside(s, o, t, After(s, env, steps, i).value, i);
  }

  /** One burn and one payout per run, whatever the amount to unroll: step 0 burns, and the
      step that pays is the first when nothing has to be unrolled and else the last. */
  lemma OneBurnOnePayout(s: State, env: Env, steps: seq<Instruction>, o: State, t: State, i: nat)
    requires Accepted(s, env, steps, o, t) && i <= s.portIterate
    ensures After(s, env, steps, i).Ok?
    ensures BurnsAndPaysAt(s, t, After(s, env, steps, i).value, Payer(o), i)
    ensures BurntAndPaid(s, t, steps[0].amount, o.port.redeemAmount, steps[Payer(o)].userLiquidity)
  {
    RunIsBurntAndPaid(s, env, steps, o, t);
    if 1 <= i < s.portIterate {
      Inside(s, env, steps, o, t, i);
    } else if i == s.portIterate {
      RunGoesOn(s, env, steps, i);
      assert steps[i..] == [];
    }
  }

  lemma RunIsBurntAndPaid(s: State, env: Env, steps: seq<Instruction>, o: State, t: State)
    requires Accepted(s, env, steps, o, t)
    ensures BurntAndPaid(s, t, steps[0].amount, o.port.redeemAmount, steps[Payer(o)].userLiquidity)
  {
    RedeemRunIff(s, env, steps);
    CompletedIsBurntAndPaid(s, env, steps[0], t, steps[Payer(o)].userLiquidity);
  }

  lemma CompletedIsBurntAndPaid(s: State, env: Env, ins: Instruction, t: State, user: Key)
    requires ins.Redeem? && ins.userLp == s.port.approvedWallet && Opens(s, env, ins)
    requires CompletedBy(Started(s, env, ins), env, user, Ok(t))
    ensures BurntAndPaid(s, t, ins.amount, Started(s, env, ins).port.redeemAmount, user)
  {
    var o := Started(s, env, ins);
    BeforePayoutKeeps(o, env);
    StartedBurns(s, env, ins);
    PayoutBurntAndPaid(s, o, BeforePayout(o, env), ins.amount, user);
  }

  lemma StartedBurns(s: State, env: Env, ins: Instruction)
    requires ins.Redeem? && Opens(s, env, ins)
    ensures var o := Started(s, env, ins);
      && o.lpAmount == s.lpAmount - ins.amount == o.accounts.lpSupply
      && o.accounts == s.accounts.(lpSupply := o.accounts.lpSupply, userLp :=
           s.accounts.userLp[ins.userLp := Balance(s.accounts.userLp, ins.userLp) - ins.amount])
      && o.port.Reset() == s.port.Reset()
      && o == s.(lpAmount := o.lpAmount, accounts := o.accounts, port := o.port)
  {
  }

  /** What is left of x, in ten-thousandths, after the fee's rate. */
  function LessFee(bips: nat, x: nat): nat
    requires bips <= 255
  {
    (10_000 - bips) * x
  }

  /** The first whole unit above the exact worth of `a` tokens less the fee's rate. */
  function NetUnit(bips: nat, lp: nat, assets: nat, a: nat): nat
    requires 0 < lp && bips <= 255
  {
    LessFee(bips, a * assets) / (10_000 * (lp * WAD)) + 1
  }

  /** The least payout that leaves `net` units after the fee. */
  function GrossFor(bips: nat, net: nat): nat
    requires bips <= 255
  {
    (10_000 * net + (9_999 - bips)) / (10_000 - bips)
  }

  lemma NetReachesIff(bips: nat, redeemed: nat, net: nat)
    requires bips <= 255 && redeemed < U64_LIMIT
    ensures Fee(bips, redeemed) <= redeemed
    ensures net <= redeemed - Fee(bips, redeemed) <==> GrossFor(bips, net) <= redeemed
  {
    FeeAffordable(bips, redeemed);
    var d := 10_000 - bips;
    assert d * redeemed == 10_000 * redeemed - bips * redeemed;
    CeilingIff(10_000 * net, d, redeemed);
  }

  lemma CeilingIff(x: nat, d: nat, y: nat)
    requires 0 < d
    ensures (x + (d - 1)) / d <= y <==> x <= d * y
  {
    var q := (x + (d - 1)) / d;
    DivBounds(x + (d - 1), d);
    if q <= y {
      MulMonotone(q, y, d);
    } else {
      MulMonotone(y + 1, q, d);
    }
  }

  lemma NetPastIff(bips: nat, redeemed: nat, worth: nat, p: nat)
    requires bips <= 255 && redeemed < U64_LIMIT && 0 < p
    ensures worth < (redeemed - Fee(bips, redeemed)) * p <==> GrossFor(bips, worth / p + 1) <= redeemed
  {
    NetReachesIff(bips, redeemed, worth / p + 1);
    LpShares.PastWorth(worth, p, redeemed - Fee(bips, redeemed));
  }

  /** After the fee: the net payout exceeds the exact worth less the fee's rate if and only if
      the rate's remainder reaches the gross payout that the next net unit takes. */
  lemma NetPayoutExceedsWorthIff(bips: nat, lp: nat, assets: nat, a: nat, redeemed: nat)
    requires 0 < lp && 0 < assets && bips <= 255 && LpShares.Redeemed(lp, assets, a) == Ok(redeemed)
    ensures LessFee(bips, a * assets) < (redeemed - Fee(bips, redeemed)) * (10_000 * (lp * WAD))
       <==> LpShares.Reaches(lp, assets, a, GrossFor(bips, NetUnit(bips, lp, assets, a)))
  {
    var needed := GrossFor(bips, NetUnit(bips, lp, assets, a));
    NetPastIff(bips, redeemed, LessFee(bips, a * assets), 10_000 * (lp * WAD));
    assert needed <= redeemed <==> LpShares.Reaches(lp, assets, a, needed) by {
      LpShares.PayoutReachesIff(lp, assets, a, needed);
    }
  }

  /** Of a completed run, exactly when the user's wallet rises by more than the exact worth of
      the tokens less the fee's rate. A pool priced at nothing pays one unit per token. */
  lemma UserPaidOverWorthIff(s: State, env: Env, steps: seq<Instruction>, o: State, t: State)
    requires Accepted(s, env, steps, o, t)
    ensures 0 < s.lpAmount && s.withdrawFeeBips <= 255
    ensures var (bips, lp, assets, a) := (s.withdrawFeeBips, s.lpAmount, PricedAssets(s, env), steps[0].amount);
      var user := steps[Payer(o)].userLiquidity;
      var received := Balance(t.accounts.userLiquidity, user) - Balance(s.accounts.userLiquidity, user);
      var needed := GrossFor(bips, NetUnit(bips, lp, assets, a));
      LessFee(bips, a * assets) < received * (10_000 * (lp * WAD))
      <==> if assets == 0 then needed <= a else LpShares.Reaches(lp, assets, a, needed)
  {
    RunIsBurntAndPaid(s, env, steps, o, t);
    OpeningFacts(s, env, steps[0]);
    PaidOverWorth(s.withdrawFeeBips, s.lpAmount, PricedAssets(s, env), steps[0].amount, o.port.redeemAmount);
  }

  lemma PaidOverWorth(bips: nat, lp: nat, assets: nat, a: nat, redeemed: nat)
    requires 0 < lp && bips <= 255 && LpShares.Redeemed(lp, assets, a) == Ok(redeemed)
    ensures var needed := GrossFor(bips, NetUnit(bips, lp, assets, a));
      LessFee(bips, a * assets) < (redeemed - Fee(bips, redeemed)) * (10_000 * (lp * WAD))
      <==> if assets == 0 then needed <= a else LpShares.Reaches(lp, assets, a, needed)
  {
    if assets != 0 {
      NetPayoutExceedsWorthIff(bips, lp, assets, a, redeemed);
    } else {
      assert redeemed == a;
      NetPastIff(bips, a, LessFee(bips, a * assets), 10_000 * (lp * WAD));
    }
  }

  /** What the unroll leaves for the payout: enough, and at most one collateral unit's
      worth per step too much, at a cost in exact assets below one unit per step. */
  lemma UnrollFigures(o: State, env: Env)
    requires Opened(o) && Completes(o, env)
    requires o.port.amountToUnroll != 0 ==> o.port.redeemAmount == o.accounts.poolLiquidity + o.port.amountToUnroll
    ensures var b := BeforePayout(o, env);
      var spare := if o.port.redeemAmount < o.accounts.poolLiquidity
                   then o.accounts.poolLiquidity - o.port.redeemAmount else 0;
      && o.port.redeemAmount + spare <= b.poolLiquidity
      && b.poolLiquidity <= o.port.redeemAmount + spare + o.portIterate * (WAD / env.rate)
      && 0 <= Assets(o.accounts, env.rate) - Assets(b, env.rate) < o.portIterate * env.rate
  {
    if o.port.amountToUnroll != 0 {
      WholeUnroll(o, env);
      var percent := env.ltv - o.reservePercentage;
      SlackBound(env.rate, percent, o.port.amountToUnroll, o.portIterate);
      RunLoss(o.accounts, env.rate, percent, o.portIterate, 0, o.port.amountToUnroll);
    } else {
      MulMonotone(1, o.portIterate, env.rate);
      MulMonotone(0, o.portIterate, WAD / env.rate);
    }
  }

  lemma PayoutAssets(b: Accounts, rate: Rate, bips: nat, amount: nat, user: Key)
    requires amount <= b.poolLiquidity && Fee(bips, amount) <= amount
    ensures Assets(Paid(b, bips, amount, user), rate) == Assets(b, rate) - amount * rate
  {
    assert (b.poolLiquidity - amount) * rate == b.poolLiquidity * rate - amount * rate;
  }

  /** Precision and conservation of a completed run: the wallet keeps what it had beyond
      the redeemed amount plus at most n collateral units' worth, and the exact assets fall
      by the redeemed amount plus a rounding loss of at least zero and less than n units. */
  lemma RedeemRunConserves(s: State, env: Env, steps: seq<Instruction>, o: State, t: State)
    requires Accepted(s, env, steps, o, t)
    ensures var redeemed := o.port.redeemAmount;
      var spare := if redeemed < s.accounts.poolLiquidity then s.accounts.poolLiquidity - redeemed else 0;
      && spare <= t.accounts.poolLiquidity <= spare + s.portIterate * (WAD / env.rate)
      && 0 <= Assets(s.accounts, env.rate) - Assets(t.accounts, env.rate) - redeemed * env.rate
           < s.portIterate * env.rate
  {
    RedeemRunIff(s, env, steps);
    OpeningFacts(s, env, steps[0]);
    UnrollFigures(o, env);
    PayoutAssets(BeforePayout(o, env), env.rate, s.withdrawFeeBips, o.port.redeemAmount,
                 steps[Payer(o)].userLiquidity);
    assert Assets(o.accounts, env.rate) == Assets(s.accounts, env.rate);
  }

  /** The pool is priced at its exact assets, rounded down by less than a scaled unit. */
  lemma PricedIsExact(s: State, env: Env)
    requires PositionValue(env.rate, s.accounts.collateral, s.accounts.debt).Ok?
    ensures PricedAssets(s, env) * env.rate <= Assets(s.accounts, env.rate) * WAD
    ensures Assets(s.accounts, env.rate) * WAD < PricedAssets(s, env) * env.rate + env.rate
  {
    var a := s.accounts;
    DivBounds(a.collateral * WAD * WAD, env.rate);
    PricedScaled(a.collateral, a.debt, a.poolLiquidity, WAD, env.rate, a.collateral * WAD * WAD / env.rate);
  }

  lemma PricedScaled(c: nat, d: nat, pool: nat, w: nat, rate: Rate, value: nat)
    ensures (value - d * w + pool * w) * rate
         == value * rate + (c * w - d * rate + pool * rate) * w - c * w * w
  {
    assert (value - d * w + pool * w) * rate == value * rate - d * w * rate + pool * w * rate;
    assert (c * w - d * rate + pool * rate) * w == c * w * w - d * rate * w + pool * rate * w;
    assert d * w * rate == d * rate * w && pool * w * rate == pool * rate * w;
  }

  /** The other holders: within the accuracy condition, redeeming a of the lp tokens leaves
      them their exact share of the pool's exact assets, up to one unit of liquidity for
      the price and one for each step; and no more than two units beyond it. */
  lemma OthersKeepTheirShare(s: State, env: Env, steps: seq<Instruction>, o: State, t: State)
    requires Accepted(s, env, steps, o, t)
    requires var assets := PricedAssets(s, env); 0 < assets <= Price(s, assets) * WAD
    ensures var rate := env.rate;
      var share := Assets(s.accounts, rate) * (s.lpAmount - steps[0].amount);
      share - (s.portIterate + 1) * rate * s.lpAmount
      < Assets(t.accounts, rate) * s.lpAmount
      < share + 2 * rate * s.lpAmount
  {
    var lp, a, assets := s.lpAmount, steps[0].amount, PricedAssets(s, env);
    RedeemRunConserves(s, env, steps, o, t);
    OpeningFacts(s, env, steps[0]);
    LpShares.RedeemWithinOneUnit(lp, assets, a);
    PricedIsExact(s, env);
    ShareLeft(lp, a, assets, o.port.redeemAmount, WAD, env.rate, Assets(s.accounts, env.rate),
              Assets(t.accounts, env.rate), s.portIterate);
  }

  lemma ShareLeft(lp: nat, a: nat, assets: nat, redeemed: nat, w: nat, rate: Rate, before: int, after: int, n: nat)
    requires 0 < a <= lp && 0 < w
    requires a * assets < (redeemed + 1) * (lp * w) && (redeemed - 1) * (lp * w) < a * assets
    requires assets * rate <= before * w < assets * rate + rate
    requires 0 <= before - after - redeemed * rate < n * rate
    ensures before * (lp - a) - (n + 1) * rate * lp < after * lp < before * (lp - a) + 2 * rate * lp
  {
    PaidAtMost(lp, a, assets, redeemed, w, rate, before);
    PaidAtLeast(lp, a, assets, redeemed, w, rate, before);
    LeftToLp(lp, redeemed, rate, before, after, n);
    assert before * (lp - a) == before * lp - a * before;
    assert (n + 1) * rate * lp == n * rate * lp + rate * lp;
  }

  lemma PaidAtMost(lp: nat, a: nat, assets: nat, redeemed: nat, w: nat, rate: Rate, before: int)
    requires 0 < a && 0 < w && (redeemed - 1) * (lp * w) < a * assets && assets * rate <= before * w
    ensures redeemed * rate * lp < a * before + rate * lp
  {
    MulMonotone((redeemed - 1) * (lp * w) + 1, a * assets, rate);
    MulMonotone(assets * rate, before * w, a);
    assert (redeemed - 1) * (lp * w) * rate == (redeemed * rate * lp - rate * lp) * w;
    assert a * assets * rate == assets * rate * a;
    assert before * w * a == a * before * w;
    if a * before + rate * lp <= redeemed * rate * lp {
      MulMonotone(a * before, redeemed * rate * lp - rate * lp, w);
    }
  }

  lemma PaidAtLeast(lp: nat, a: nat, assets: nat, redeemed: nat, w: nat, rate: Rate, before: int)
    requires 0 < a <= lp && 0 < w && a * assets < (redeemed + 1) * (lp * w) && before * w < assets * rate + rate
    ensures a * before < redeemed * rate * lp + 2 * rate * lp
  {
    WorthScaled(lp, a, assets, redeemed, w, rate, before);
    CancelStrict(a * before, redeemed * rate * lp + rate * lp, rate * lp, w);
  }

  lemma WorthScaled(lp: nat, a: nat, assets: nat, redeemed: nat, w: nat, rate: Rate, before: int)
    requires 0 < a <= lp && a * assets < (redeemed + 1) * (lp * w) && before * w < assets * rate + rate
    ensures a * before * w < (redeemed * rate * lp + rate * lp) * w + rate * lp
  {
    MulMonotone(a * assets, (redeemed + 1) * (lp * w), rate);
    Rescale(redeemed + 1, lp, w, rate);
    assert (redeemed + 1) * (rate * lp) == redeemed * rate * lp + rate * lp;
    TimesTokens(lp, a, assets, w, rate, before);
  }

  lemma Rescale(x: nat, lp: nat, w: nat, rate: nat)
    ensures x * (lp * w) * rate == x * (rate * lp) * w
  {
    assert lp * w * rate == rate * lp * w;
  }

  lemma TimesTokens(lp: nat, a: nat, assets: nat, w: nat, rate: Rate, before: int)
    requires 0 < a <= lp && before * w < assets * rate + rate
    ensures a * before * w < a * assets * rate + rate * lp
  {
    MulMonotone(before * w + 1, assets * rate + rate, a);
    MulMonotone(a, lp, rate);
    assert before * w * a == a * before * w;
    assert assets * rate * a == a * assets * rate;
  }

  lemma CancelStrict(x: int, y: int, z: nat, w: nat)
    requires 0 < w && 0 < z && x * w < y * w + z
    ensures x < y + z
  {
    assert (y + z) * w == y * w + z * w;
    MulMonotone(1, w, z);
    if y + z <= x {
      MulMonotone(y + z, x, w);
    }
  }

  lemma LeftToLp(lp: nat, redeemed: nat, rate: Rate, before: int, after: int, n: nat)
    requires 0 < lp && 0 <= before - after - redeemed * rate < n * rate
    ensures before * lp - redeemed * rate * lp - n * rate * lp < after * lp <= before * lp - redeemed * rate * lp
  {
    MulMonotone(after + redeemed * rate, before, lp);
    MulMonotone(before - redeemed * rate - n * rate + 1, after, lp);
    assert (after + redeemed * rate) * lp == after * lp + redeemed * rate * lp;
    assert (before - redeemed * rate - n * rate + 1) * lp
        == before * lp - redeemed * rate * lp - n * rate * lp + lp;
  }
}
