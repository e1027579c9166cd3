/** What a completed deposit is worth: to the depositor, to the other holders, and against
    the pool's limits. */
module DepositCredit {
  import opened Wad
  import opened PortRate
  import opened Ledger
  import opened Plan
  import opened Pool
  import opened DepositRun
  import opened LeverageRun
  import opened Leverage
  import LpShares
  import RedeemRun
  import Share

  /** The state the close starts from. */
  function AtClose(s: State, env: Env, steps: seq<Instruction>): State
    requires Steps(s, steps, 0) && 1 <= s.portIterate && s.reservePercentage <= env.ltv
    requires Opens(s, env, steps[0])
  {
    Before(Started(s, env, steps[0]), env, s.portIterate, FeesOf(steps))
  }

  /** A deposit run accepted from s with the result t, and the credit its close computed. */
  predicate Accepted(s: State, env: Env, steps: seq<Instruction>, t: State, c: Credits) {
    && Ready(s) && Steps(s, steps, 0) && Run(s, env, steps) == Ok(t)
    && Opens(s, env, steps[0]) && s.reservePercentage <= env.ltv
    && CreditsOf(AtClose(s, env, steps), env) == Ok(c)
  }

  /** Every run that succeeds is accepted with some credit. */
  lemma EveryRunIsAccepted(s: State, env: Env, steps: seq<Instruction>, t: State) returns (c: Credits)
    requires Ready(s) && Steps(s, steps, 0) && Run(s, env, steps) == Ok(t)
    ensures Accepted(s, env, steps, t, c)
  {
    DepositRunIff(s, env, steps);
    ClosingIff(s, env, steps);
    c := CreditsOf(AtClose(s, env, steps), env).value;
  }

  /** The credit, in terms of the worths before and after and of what was paid in. */
  lemma CreditIs(s: State, env: Env, steps: seq<Instruction>, t: State, c: Credits)
    requires Accepted(s, env, steps, t, c)
    ensures WorthOf(s, env).Ok? && WorthOf(t, env) == Ok(c.after)
    ensures var total := steps[0].amount + s.accounts.poolLiquidity;
      var worth := WorthOf(s, env).value;
      && total < s.liquidityCap
      && worth <= c.after <= worth + total * WAD
      && c.gain == (c.after - worth) * (steps[0].amount * WAD / total) / WAD / WAD
      && c.before == c.after - c.gain * WAD
      && LpShares.Minted(s.lpAmount, c.before, c.gain) == Ok(c.minted)
      && c.gain <= steps[0].amount && worth <= c.before
    ensures DepositClose(AtClose(s, env, steps), env, steps[s.portIterate - 1].userLp) == Ok(t)
  {
    var b := AtClose(s, env, steps);
    DepositRunIff(s, env, steps);
    ClosingIff(s, env, steps);
    OpeningIs(s, env, steps[0]);
    GainBounds(b, env, steps[0].amount, steps[0].amount + s.accounts.poolLiquidity, c.after);
    CloseIff(b, env, steps[s.portIterate - 1].userLp, steps[0].amount, steps[0].amount + s.accounts.poolLiquidity);
  }

  /** Depositor credit: no accepted deposit credits more than was paid in. If the position
      rose by exactly the liquidity that went in, the credit misses the amount by at most
      total / WAD, rounded up; that is one unit for any total up to WAD. */
  lemma DepositorCredit(s: State, env: Env, steps: seq<Instruction>, t: State, c: Credits, slack: nat)
    requires Accepted(s, env, steps, t, c)
    ensures c.gain <= steps[0].amount
    ensures var total := steps[0].amount + s.accounts.poolLiquidity;
      && WorthOf(s, env).Ok? && WorthOf(t, env).Ok?
      && (WorthOf(t, env).value == WorthOf(s, env).value + total * WAD && total <= slack * WAD ==>
            steps[0].amount - slack <= c.gain)
  {
    CreditIs(s, env, steps, t, c);
    var total := steps[0].amount + s.accounts.poolLiquidity;
    if total <= slack * WAD {
      Share.ShareAtLeast(steps[0].amount, total, WAD, slack);
    }
  }

  /** What a completed deposit did to the pool, all of it: the amount left the depositor's
      wallet, the minted tokens reached the last step's LP wallet, the position is where the
      turns left it and the pool's wallet is empty, the run's state is cleared, and nothing
      else has changed. */
  lemma DepositMoves(s: State, env: Env, steps: seq<Instruction>, t: State, c: Credits)
    requires Accepted(s, env, steps, t, c)
    ensures var n := s.portIterate;
      var total := steps[0].amount + s.accounts.poolLiquidity;
      var levered := Levered(s.accounts.(poolLiquidity := total), env.rate, env.ltv - s.reservePercentage, n, n,
                             FeesOf(steps));
      && levered.poolLiquidity == 0
      && t == s.(
           lpAmount := s.lpAmount + c.minted,
           accounts := levered.(
             lpSupply := s.lpAmount + c.minted,
             userLp := Credit(s.accounts.userLp, steps[n - 1].userLp, c.minted),
             userLiquidity := s.accounts.userLiquidity[s.port.approvedWallet :=
               Balance(s.accounts.userLiquidity, s.port.approvedWallet) - steps[0].amount]),
           port := s.port.Reset().(lastSoldSlot :=
             if s.port.lastSoldSlot == 0 then env.slot else s.port.lastSoldSlot))
  {
    CreditIs(s, env, steps, t, c);
  }

  /** What an accepted run leaves in the books, apart from how it got there. */
  predicate Booked(s: State, env: Env, amount: nat, t: State, c: Credits) {
    && 0 < amount && WorthOf(s, env).Ok? && WorthOf(t, env) == Ok(c.after)
    && (var (worth, total) := (WorthOf(s, env).value, amount + s.accounts.poolLiquidity);
        && worth <= c.before <= c.after
        && c.gain == (c.after - worth) * (amount * WAD / total) / WAD / WAD
        && c.before == c.after - c.gain * WAD)
    && LpShares.Minted(s.lpAmount, c.before, c.gain) == Ok(c.minted)
    && t.lpAmount == s.lpAmount + c.minted && t.accounts.poolLiquidity == 0
  }

  lemma AcceptedIsBooked(s: State, env: Env, steps: seq<Instruction>, t: State, c: Credits)
    requires Accepted(s, env, steps, t, c)
    ensures Booked(s, env, steps[0].amount, t, c)
  {
    CreditIs(s, env, steps, t, c);
    DepositMoves(s, env, steps, t, c);
  }

  /** No dilution: the other holders' worth per token does not fall at the mint, and what
      is left to them is at least what the position was worth when the run began. */
  lemma DepositNeverDilutes(s: State, env: Env, steps: seq<Instruction>, t: State, c: Credits)
    requires Accepted(s, env, steps, t, c) && 0 < s.lpAmount
    ensures WorthOf(s, env).Ok? && WorthOf(t, env).Ok?
    ensures var worth := WorthOf(s, env).value;
      var after := WorthOf(t, env).value;
      && t.lpAmount == s.lpAmount + c.minted
      && t.lpAmount * (after - c.gain * WAD) <= s.lpAmount * after
      && worth <= after - c.gain * WAD
      && t.lpAmount * worth <= s.lpAmount * after
  {
    AcceptedIsBooked(s, env, steps, t, c);
    MintDilutesNobody(s.lpAmount, c, WorthOf(s, env).value);
  }

  lemma MintDilutesNobody(lp: nat, c: Credits, worth: nat)
    requires 0 < lp && c.before == c.after - c.gain * WAD && worth <= c.before
    requires LpShares.Minted(lp, c.before, c.gain) == Ok(c.minted)
    ensures (lp + c.minted) * c.before <= lp * c.after
    ensures (lp + c.minted) * worth <= lp * c.after
  {
    LpShares.MintNeverDilutes(lp, c.before, c.gain);
    MulMonotone(worth, c.before, lp + c.minted);
  }

  /** Conservation: the exact assets of the pool rise by the amount, less the borrow fees
      and at most one collateral unit per step. */
  lemma DepositConserves(s: State, env: Env, steps: seq<Instruction>, t: State, c: Credits)
    requires Accepted(s, env, steps, t, c)
    ensures 0 <= Assets(s.accounts, env.rate) + steps[0].amount * env.rate - Assets(t.accounts, env.rate)
                   - Fees(FeesOf(steps), s.portIterate - 1) * env.rate
              <= s.portIterate * WAD
  {
    CreditIs(s, env, steps, t, c);
    var o, b := Started(s, env, steps[0]), AtClose(s, env, steps);
    LeverageConserves(o.accounts, env.rate, env.ltv - s.reservePercentage, s.portIterate, s.portIterate, FeesOf(steps));
    assert t.accounts.collateral == b.accounts.collateral && t.accounts.debt == b.accounts.debt;
    assert t.accounts.poolLiquidity == b.accounts.poolLiquidity == 0;
    AssetsOpened(s.accounts, o.accounts, steps[0].amount, env.rate);
  }

  lemma AssetsOpened(a: Accounts, b: Accounts, amount: nat, rate: Rate)
    requires b.collateral == a.collateral && b.debt == a.debt && b.poolLiquidity == amount + a.poolLiquidity
    ensures Assets(b, rate) == Assets(a, rate) + amount * rate
  {
    assert (amount + a.poolLiquidity) * rate == amount * rate + a.poolLiquidity * rate;
  }

  /** The idle liquidity is shared too: to the other holders' worth per token counts their
      part of the rise, which is the idle liquidity's part of all that went in. */
  lemma IdleIsShared(s: State, env: Env, steps: seq<Instruction>, t: State, c: Credits)
    requires Accepted(s, env, steps, t, c) && 0 < s.lpAmount
    ensures WorthOf(s, env).Ok? && WorthOf(t, env).Ok?
    ensures var (worth, after) := (WorthOf(s, env).value, WorthOf(t, env).value);
      var idle := s.accounts.poolLiquidity;
      var total := steps[0].amount + idle;
      worth <= after && t.lpAmount * (worth * total + (after - worth) * idle) <= s.lpAmount * (after * total)
  {
    AcceptedIsBooked(s, env, steps, t, c);
    BookedIsShared(s, env, steps[0].amount, t, c);
  }

  lemma BookedIsShared(s: State, env: Env, amount: nat, t: State, c: Credits)
    requires Booked(s, env, amount, t, c) && 0 < s.lpAmount
    ensures var (worth, after) := (WorthOf(s, env).value, WorthOf(t, env).value);
      var idle := s.accounts.poolLiquidity;
      var total := amount + idle;
      worth <= after && t.lpAmount * (worth * total + (after - worth) * idle) <= s.lpAmount * (after * total)
  {
    var worth := WorthOf(s, env).value;
    var total := amount + s.accounts.poolLiquidity;
    Share.ShareIsProRata(amount, total, WAD, c.after - worth, amount * WAD / total, c.gain);
    MintDilutesNobody(s.lpAmount, c, worth);
    OthersPart(s.lpAmount, t.lpAmount, worth, c.after, c.before, amount, s.accounts.poolLiquidity);
  }

  lemma OthersPart(lp: nat, minted: nat, worth: nat, after: nat, before: nat, amount: nat, idle: nat)
    requires worth <= after && minted * before <= lp * after
    requires (after - before) * (amount + idle) <= (after - worth) * amount
    ensures minted * (worth * (amount + idle) + (after - worth) * idle) <= lp * (after * (amount + idle))
  {
    var total := amount + idle;
    assert (after - worth) * total == (after - worth) * amount + (after - worth) * idle;
    assert (after - before) * total == after * total - before * total;
    assert (after - worth) * total == after * total - worth * total;
    MulMonotone(worth * total + (after - worth) * idle, before * total, minted);
    MulMonotone(minted * before, lp * after, total);
    assert minted * before * total == minted * (before * total);
    assert lp * after * total == lp * (after * total);
  }

  /** The position rises by all that went in, but for the cost of the run. */
  lemma RisesByTotal(s: State, env: Env, steps: seq<Instruction>, t: State, c: Credits)
    requires Accepted(s, env, steps, t, c)
    ensures WorthOf(s, env).Ok? && WorthOf(t, env).Ok?
    ensures (steps[0].amount + s.accounts.poolLiquidity) * WAD * env.rate
         <= (WorthOf(t, env).value - WorthOf(s, env).value) * env.rate
            + Cost(env.rate, FeesOf(steps), s.portIterate)
  {
    CreditIs(s, env, steps, t, c);
    RiseAtLeast(Started(s, env, steps[0]), env, FeesOf(steps));
  }

  /** A deposit leaves the other holders what their tokens were priced at, idle liquidity
      included, but for the idle liquidity's part of the cost of the run: nothing at all when
      the wallet was empty. */
  lemma OthersKeepTheirPrice(s: State, env: Env, steps: seq<Instruction>, t: State, c: Credits)
    requires Accepted(s, env, steps, t, c) && 0 < s.lpAmount
    ensures WorthOf(s, env).Ok? && WorthOf(t, env).Ok? && t.accounts.poolLiquidity == 0
    ensures var idle := s.accounts.poolLiquidity;
      var total := steps[0].amount + idle;
      t.lpAmount * (RedeemRun.PricedAssets(s, env) * total * env.rate)
      <= s.lpAmount * (RedeemRun.PricedAssets(t, env) * total * env.rate)
         + t.lpAmount * (idle * Cost(env.rate, FeesOf(steps), s.portIterate))
  {
    AcceptedIsBooked(s, env, steps, t, c);
    RisesByTotal(s, env, steps, t, c);
    BookedKeepsPrice(s, env, steps[0].amount, t, c, Cost(env.rate, FeesOf(steps), s.portIterate));
  }

  lemma BookedKeepsPrice(s: State, env: Env, amount: nat, t: State, c: Credits, cost: nat)
    requires Booked(s, env, amount, t, c) && 0 < s.lpAmount
    requires (amount + s.accounts.poolLiquidity) * WAD * env.rate
          <= (WorthOf(t, env).value - WorthOf(s, env).value) * env.rate + cost
    ensures var idle := s.accounts.poolLiquidity;
      var total := amount + idle;
      t.lpAmount * (RedeemRun.PricedAssets(s, env) * total * env.rate)
      <= s.lpAmount * (RedeemRun.PricedAssets(t, env) * total * env.rate) + t.lpAmount * (idle * cost)
  {
    BookedIsShared(s, env, amount, t, c);
    PriceKept(s.lpAmount, t.lpAmount, WorthOf(s, env).value, WorthOf(t, env).value, s.accounts.poolLiquidity,
              amount + s.accounts.poolLiquidity, WAD, env.rate, cost);
  }

  lemma PriceKept(lp: nat, minted: nat, worth: nat, after: nat, idle: nat, total: nat, w: nat, rate: Rate, cost: nat)
    requires worth <= after && minted * (worth * total + (after - worth) * idle) <= lp * (after * total)
    requires total * w * rate <= (after - worth) * rate + cost
    ensures minted * ((worth + idle * w) * total * rate) <= lp * (after * total * rate) + minted * (idle * cost)
  {
    var part := worth * total + (after - worth) * idle;
    IdlePart(worth, after, idle, total, w, rate, cost);
    MulMonotone((worth + idle * w) * total * rate, part * rate + idle * cost, minted);
    MulMonotone(minted * part, lp * (after * total), rate);
    assert minted * part * rate == minted * (part * rate);
    assert lp * (after * total) * rate == lp * (after * total * rate);
    assert minted * (part * rate + idle * cost) == minted * (part * rate) + minted * (idle * cost);
  }

  lemma IdlePart(worth: nat, after: nat, idle: nat, total: nat, w: nat, rate: Rate, cost: nat)
    requires worth <= after && total * w * rate <= (after - worth) * rate + cost
    ensures (worth + idle * w) * total * rate <= (worth * total + (after - worth) * idle) * rate + idle * cost
  {
    MulMonotone(total * w * rate, (after - worth) * rate + cost, idle);
    assert (worth + idle * w) * total * rate == worth * total * rate + total * w * rate * idle;
    assert (worth * total + (after - worth) * idle) * rate == worth * total * rate + (after - worth) * rate * idle;
    assert ((after - worth) * rate + cost) * idle == (after - worth) * rate * idle + idle * cost;
  }

  /** Cap: a completed deposit leaves the position worth less than the cap checked at its
      first step. */
  lemma EndsBelowCap(s: State, env: Env, steps: seq<Instruction>, t: State, c: Credits)
    requires Accepted(s, env, steps, t, c)
    ensures var worth := PositionValue(env.rate, t.accounts.collateral, t.accounts.debt);
      worth.Ok? && worth.value < s.liquidityCap * WAD
  {
    CreditIs(s, env, steps, t, c);
  }

  lemma CapEnough(total: nat, cap: nat, percent: nat, n: nat)
    requires total < cap && percent <= 100 && 0 < n
    ensures (forall k | 0 <= k < n :: !Wraps(percent, total, k)) <==> total * percent < U64_LIMIT
    ensures cap <= (U64_LIMIT - 1) / 100 ==> total * percent < U64_LIMIT
  {
    NoWrapIffFirstFits(percent, total, n);
    MulMonotone(percent, 100, total);
  }

  /** Overflow: the unchecked sum of the first step never wraps; the unchecked products of
      the whole run do not wrap if and only if the first does not, and a cap of at most
      (2^64 - 1) / 100 is enough for that. */
  lemma NothingWraps(s: State, env: Env, steps: seq<Instruction>, t: State, c: Credits)
    requires Accepted(s, env, steps, t, c) && env.ltv <= 100
    ensures var total := steps[0].amount + s.accounts.poolLiquidity;
      var percent := env.ltv - s.reservePercentage;
      && WrappingAdd(steps[0].amount, s.accounts.poolLiquidity) == total
      && ((forall k | 0 <= k < s.portIterate :: !Wraps(percent, total, k)) <==> total * percent < U64_LIMIT)
      && (s.liquidityCap <= (U64_LIMIT - 1) / 100 ==> total * percent < U64_LIMIT)
  {
    OpeningIs(s, env, steps[0]);
    CapEnough(steps[0].amount + s.accounts.poolLiquidity, s.liquidityCap, env.ltv - s.reservePercentage, s.portIterate);
  }

  /** Depositing and then redeeming exactly the minted tokens, with nobody in between: r is
      the opened redemption. */
  predicate RoundTrip(s: State, env: Env, steps: seq<Instruction>, t: State, c: Credits,
                      v: State, ins: Instruction, r: State) {
    && Accepted(s, env, steps, t, c)
    && v == t.(port := v.port) && ins.Redeem? && ins.amount == c.minted
    && RedeemRun.Opening(v, env, ins) == Ok(r)
  }

  /** The round trip, exactly: it is priced above the credit, or above the amount paid in,
      if and only if the remainder of the redeeming rate reaches the unit after it. */
  lemma DepositThenRedeemProfitsIff(s: State, env: Env, steps: seq<Instruction>, t: State, c: Credits,
                                    v: State, ins: Instruction, r: State)
    requires RoundTrip(s, env, steps, t, c, v, ins, r)
    ensures c.gain < r.port.redeemAmount
       <==> 0 < c.minted && 0 < c.after && LpShares.Reaches(t.lpAmount, c.after, c.minted, c.gain + 1)
    ensures steps[0].amount < r.port.redeemAmount
       <==> 0 < c.minted && 0 < c.after && LpShares.Reaches(t.lpAmount, c.after, c.minted, steps[0].amount + 1)
  {
    CreditIs(s, env, steps, t, c);
    LpShares.RoundTripProfitsIff(s.lpAmount, c.before, c.gain, c.minted, r.port.redeemAmount);
    if 0 < c.minted && 0 < c.after {
      LpShares.PayoutReachesIff(t.lpAmount, c.after, c.minted, steps[0].amount + 1);
    }
  }

  /** As long as the pool's worth is within the scaled rate it is priced at, that never
      happens: the round trip gives at most the credit, and so at most what was paid in. */
  lemma DepositThenRedeemNeverProfits(s: State, env: Env, steps: seq<Instruction>, t: State, c: Credits,
                                      v: State, ins: Instruction, r: State)
    requires RoundTrip(s, env, steps, t, c, v, ins, r) && 0 < s.lpAmount
    requires c.after <= LpShares.ExchangeRate(t.lpAmount, c.after).value * WAD
    ensures r.port.redeemAmount <= c.gain <= steps[0].amount
  {
    CreditIs(s, env, steps, t, c);
    LpShares.MintThenRedeemNeverProfits(s.lpAmount, c.before, c.gain, c.minted, r.port.redeemAmount);
  }
}
