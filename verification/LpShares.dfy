/** Share accounting: the scaled exchange rate from liquidity to LP tokens, the two
    conversions that use it, and what their nested truncations cost and to whom.

    Throughout, `assets` and `before` are scaled amounts of liquidity, `lp` is the number
    of LP tokens, and the exact worth of `a` tokens is a * assets / (lp * WAD) units. */
module LpShares {
  import opened Wad

  /** LP tokens per unit of liquidity, scaled; one when there is nothing to divide. */
  function ExchangeRate(lp: nat, assets: nat): Result<nat> {
    if assets == 0 || lp == 0 then Ok(WAD) else DecimalDiv(lp * WAD, assets)
  }

  function LiquidityToLp(rate: nat, liquidity: nat): Result<nat> {
    FloorU64(rate * liquidity)
  }

  function LpToLiquidity(rate: nat, lp: nat): Result<nat> {
    var liquidity :- DecimalDiv(lp * WAD, rate);
    FloorU64(liquidity)
  }

  /** The liquidity a holder of `a` of the `lp` tokens is owed out of `assets`. */
  function Redeemed(lp: nat, assets: nat, a: nat): Result<nat> {
    var rate :- ExchangeRate(lp, assets);
    LpToLiquidity(rate, a)
  }

  /** The tokens minted for a gain of `gain` when the other holders own `before`. */
  function Minted(lp: nat, before: nat, gain: nat): Result<nat> {
    var rate :- ExchangeRate(lp, before);
    LiquidityToLp(rate, gain)
  }

  /** The number of tokens that comes to, whether or not it fits u64. */
  function Tokens(lp: nat, before: int, gain: nat): nat {
    if before <= 0 || lp == 0 then gain else lp * WAD * WAD / before * gain / WAD
  }

  lemma MintedIs(lp: nat, before: nat, gain: nat)
    ensures Minted(lp, before, gain)
         == if Tokens(lp, before, gain) < U64_LIMIT then Ok(Tokens(lp, before, gain)) else Err(MathFailure)
  {
    if before == 0 || lp == 0 {
      assert WAD * gain / WAD == gain;
    }
  }

  /* Symbolic cores of the proofs: w stands for the scale. */

  lemma NestedFloor(x: nat, w: nat, q: nat)
    requires 0 < w && 0 < q
    ensures x * w * w / q / w == x * w / q
  {
    DivBounds(x * w * w, q);
    DivBounds(x * w, q);
    FloorOfFloor(x * w, w, q, x * w * w / q, x * w / q);
  }

  lemma FloorOfFloor(y: nat, w: nat, q: nat, inner: nat, r: nat)
    requires 0 < w && 0 < q
    requires r * q <= y < r * q + q
    requires inner * q <= y * w < inner * q + q
    ensures inner / w == r
  {
    InnerAtLeast(y, w, q, inner, r);
    InnerBelow(y, w, q, inner, r);
    DivAtLeast(r, inner, w);
    DivAtMost(r, inner, w);
  }

  lemma InnerAtLeast(y: nat, w: nat, q: nat, inner: nat, r: nat)
    requires 0 < q && r * q <= y && y * w < inner * q + q
    ensures r * w <= inner
  {
    MulMonotone(r * q, y, w);
    assert r * q * w == r * w * q;
    if inner + 1 <= r * w {
      MulMonotone(inner + 1, r * w, q);
    }
  }

  lemma InnerBelow(y: nat, w: nat, q: nat, inner: nat, r: nat)
    requires 0 < w && 0 < q && y < r * q + q && inner * q <= y * w
    ensures inner < (r + 1) * w
  {
    MulMonotone(y + 1, (r + 1) * q, w);
    assert (r + 1) * q * w == (r + 1) * w * q;
    if (r + 1) * w <= inner {
      MulMonotone((r + 1) * w, inner, q);
    }
  }

  lemma RedeemedIs(lp: nat, assets: nat, a: nat)
    requires 0 < lp && 0 < assets
    ensures ExchangeRate(lp, assets) == Ok(lp * WAD * WAD / assets)
    ensures Redeemed(lp, assets, a).Ok? ==>
      && 0 < lp * WAD * WAD / assets
      && Redeemed(lp, assets, a).value == a * WAD / (lp * WAD * WAD / assets)
  {
    var q := lp * WAD * WAD / assets;
    if q != 0 {
      NestedFloor(a, WAD, q);
    }
  }

  /** The payout x is less than a unit short: with q <= p * w / assets and p = lp * w. */
  lemma NotShort(p: nat, w: nat, assets: nat, a: nat, q: nat)
    requires 0 < p && 0 < w && 0 < q && q * assets <= p * w
    ensures a * assets < (a * w / q + 1) * p
  {
    var x := a * w / q;
    DivBounds(a * w, q);
    assert q * (a * assets) <= a * w * p by {
      MulMonotone(q * assets, p * w, a);
      assert a * (p * w) == a * w * p;
      assert q * assets * a == q * (a * assets);
    }
    assert a * w * p < (x + 1) * p * q by {
      MulMonotone(a * w + 1, (x + 1) * q, p);
      assert (x + 1) * q * p == (x + 1) * p * q;
    }
    if (x + 1) * p <= a * assets {
      MulMonotone((x + 1) * p, a * assets, q);
    }
  }

  /** The payout x exceeds the worth by no more than the rate's own rounding allows. */
  lemma NotOver(p: nat, w: nat, assets: nat, a: nat, q: nat)
    requires 0 < assets && 0 < q && p * w < q * assets + assets
    ensures (a * w / q * p - a * assets) * q <= a * (assets - 1)
  {
    var x := a * w / q;
    DivBounds(a * w, q);
    ScaleBoth(x, q, a, w, p);
    var share := q * assets + (assets - 1);
    MulMonotone(p * w, share, a);
    Expand(a, q, assets);
    Unfold(x * p, a * assets, q);
  }

  lemma ScaleBoth(x: nat, q: nat, a: nat, w: nat, p: nat)
    requires x * q <= a * w
    ensures x * p * q <= p * w * a
  {
    MulMonotone(x * q, a * w, p);
    assert x * q * p == x * p * q;
    assert a * w * p == p * w * a;
  }

  lemma Expand(a: nat, q: nat, assets: nat)
    requires 0 < assets
    ensures (q * assets + (assets - 1)) * a == a * assets * q + a * (assets - 1)
  {
    assert q * assets * a == a * assets * q;
  }

  lemma Unfold(x: int, y: int, q: int)
    ensures (x - y) * q == x * q - y * q
  {
  }

  /** Two-sided bound with no side condition: the payout is less than one unit below the
      exact worth, and above it by at most a * (assets - 1) / (rate * lp * WAD) units. */
  lemma RedeemBoundedBothSides(lp: nat, assets: nat, a: nat)
    requires 0 < lp && 0 < assets && Redeemed(lp, assets, a).Ok?
    ensures a * assets < (Redeemed(lp, assets, a).value + 1) * (lp * WAD)
    ensures (Redeemed(lp, assets, a).value * (lp * WAD) - a * assets) * ExchangeRate(lp, assets).value
         <= a * (assets - 1)
  {
    var q := lp * WAD * WAD / assets;
    RedeemedIs(lp, assets, a);
    DivBounds(lp * WAD * WAD, assets);
    NotShort(lp * WAD, WAD, assets, a, q);
    NotOver(lp * WAD, WAD, assets, a, q);
  }

  /** When the assets are no larger than the scaled rate, every holder is paid strictly
      within one unit of the exact worth. */
  lemma RedeemWithinOneUnit(lp: nat, assets: nat, a: nat)
    requires 0 < lp && 0 < assets && a <= lp && Redeemed(lp, assets, a).Ok?
    requires assets <= ExchangeRate(lp, assets).value * WAD
    ensures a * assets < (Redeemed(lp, assets, a).value + 1) * (lp * WAD)
    ensures (Redeemed(lp, assets, a).value - 1) * (lp * WAD) < a * assets
  {
    RedeemBoundedBothSides(lp, assets, a);
    var q := ExchangeRate(lp, assets).value;
    RedeemedIs(lp, assets, a);
    OverpaymentBelowUnit(Redeemed(lp, assets, a).value, lp, WAD, assets, a, q);
  }

  lemma OverpaymentBelowUnit(x: nat, lp: nat, w: nat, assets: nat, a: nat, q: nat)
    requires 0 < lp && 0 < w && 0 < assets <= q * w && a <= lp && 0 < q
    requires (x * (lp * w) - a * assets) * q <= a * (assets - 1)
    ensures (x - 1) * (lp * w) < a * assets
  {
    MulMonotone(a, lp, assets - 1);
    MulMonotone(assets - 1, q * w - 1, lp);
    assert lp * (q * w) == lp * w * q;
    assert (x * (lp * w) - a * assets) * q < lp * w * q;
    if a * assets <= (x - 1) * (lp * w) {
      assert lp * w <= x * (lp * w) - a * assets;
      MulMonotone(lp * w, x * (lp * w) - a * assets, q);
    }
  }

  /** Redeeming the whole supply of a pool worth a whole number of units pays exactly that
      number if and only if the remainder of the rate's division is below the rate. */
  lemma WholeSupplyPaidExactly(lp: nat, units: nat)
    requires 0 < lp && 0 < units && Redeemed(lp, units * WAD, lp).Ok?
    ensures Redeemed(lp, units * WAD, lp).value == units
       <==> (lp * WAD) % units < lp * WAD / units
  {
    RedeemedIs(lp, units * WAD, lp);
    var q := lp * WAD / units;
    assert lp * WAD * WAD / (units * WAD) == q by {
      CancelFactor(lp * WAD, units, WAD);
    }
    WholeQuotient(lp * WAD, units, q);
  }

  lemma CancelFactor(x: nat, y: nat, w: nat)
    requires 0 < y && 0 < w
    ensures 0 < y * w && x * w / (y * w) == x / y
  {
    var q := x / y;
    DivBounds(x, y);
    MulMonotone(q * y, x, w);
    assert q * y * w == q * (y * w);
    MulMonotone(x + 1, (q + 1) * y, w);
    assert (q + 1) * y * w == (q + 1) * (y * w);
    DivAtLeast(q, x * w, y * w);
    DivAtMost(q, x * w, y * w);
  }

  lemma WholeQuotient(x: nat, y: nat, q: nat)
    requires 0 < y && q == x / y && 0 < q
    ensures x / q == y <==> x % y < q
  {
    assert x == q * y + x % y;
    DivBounds(x, q);
    if x % y < q {
      DivAtLeast(y, x, q);
      assert x < (y + 1) * q;
      DivAtMost(y, x, q);
    } else {
      DivAtLeast(y + 1, x, q);
    }
  }

  /** The accuracy condition makes the whole supply exact. */
  lemma SmallPoolPaidExactly(lp: nat, units: nat)
    requires 0 < lp && 0 < units && Redeemed(lp, units * WAD, lp).Ok?
    requires units <= ExchangeRate(lp, units * WAD).value
    ensures Redeemed(lp, units * WAD, lp).value == units
  {
    WholeSupplyPaidExactly(lp, units);
    CancelFactor(lp * WAD, units, WAD);
  }

  /** Whether the remainder of the rate's division, weighted by `units`, makes up for what
      the exact worth of `a` tokens lacks to `units`. */
  predicate Reaches(lp: nat, assets: nat, a: nat, units: nat)
    requires 0 < assets
  {
    WAD * (units * (lp * WAD) - a * assets) <= units * ((lp * WAD * WAD) % assets)
  }

  /** The payout, exactly: it comes to at least `units` if and only if the remainder of the
      rate's division reaches that far beyond the exact worth. */
  lemma PayoutReachesIff(lp: nat, assets: nat, a: nat, units: nat)
    requires 0 < lp && 0 < assets && Redeemed(lp, assets, a).Ok?
    ensures units <= Redeemed(lp, assets, a).value <==> Reaches(lp, assets, a, units)
  {
    RedeemedIs(lp, assets, a);
    var q := lp * WAD * WAD / assets;
    DivBounds(lp * WAD * WAD, assets);
    QuotientReaches(units, a * WAD, q);
    ReachesScaled(lp * WAD, WAD, assets, a, q, units, (lp * WAD * WAD) % assets);
  }

  lemma QuotientReaches(units: nat, x: nat, q: nat)
    requires 0 < q
    ensures units <= x / q <==> units * q <= x
  {
    DivBounds(x, q);
    if units <= x / q {
      MulMonotone(units, x / q, q);
    } else {
      MulMonotone(x / q + 1, units, q);
    }
  }

  lemma ReachesScaled(p: nat, w: nat, assets: nat, a: nat, q: nat, units: nat, rest: nat)
    requires 0 < assets && p * w == q * assets + rest
    ensures units * q <= a * w <==> w * (units * p - a * assets) <= units * rest
  {
    RateTimes(units, q, assets, rest, p * w);
    WorthTimes(units, a, assets, p, w);
    if units * q <= a * w {
      MulMonotone(units * q, a * w, assets);
    } else {
      MulMonotone(a * w + 1, units * q, assets);
    }
  }

  lemma RateTimes(units: nat, q: nat, assets: nat, rest: nat, total: nat)
    requires total == q * assets + rest
    ensures units * q * assets == units * total - units * rest
  {
    assert units * q * assets == units * (q * assets);
    Unfold(total, rest, units);
  }

  lemma WorthTimes(units: nat, a: nat, assets: nat, p: nat, w: nat)
    ensures a * w * assets == units * (p * w) - w * (units * p - a * assets)
  {
    assert a * w * assets == (a * assets) * w;
    Unfold(units * p, a * assets, w);
    assert units * p * w == units * (p * w);
  }

  /** The redeemer can be paid more than the exact worth, because the payout divides by a
      rate that was rounded down. It happens exactly when the remainder of the rate's
      division, weighted by the next whole unit, reaches the distance to that unit. */
  lemma PayoutExceedsWorthIff(lp: nat, assets: nat, a: nat)
    requires 0 < lp && 0 < assets && Redeemed(lp, assets, a).Ok?
    ensures (a * assets < Redeemed(lp, assets, a).value * (lp * WAD)) <==>
            (WAD * (lp * WAD - (a * assets) % (lp * WAD))
             <= (a * assets / (lp * WAD) + 1) * ((lp * WAD * WAD) % assets))
  {
    var next := a * assets / (lp * WAD) + 1;
    PayoutReachesIff(lp, assets, a, next);
    PastWorth(a * assets, lp * WAD, Redeemed(lp, assets, a).value);
  }

  lemma PastWorth(worth: nat, p: nat, x: nat)
    requires 0 < p
    ensures worth < x * p <==> worth / p + 1 <= x
    ensures (worth / p + 1) * p - worth == p - worth % p
  {
    DivBounds(worth, p);
    if worth / p + 1 <= x {
      MulMonotone(worth / p + 1, x, p);
    } else {
      MulMonotone(x, worth / p, p);
    }
  }

  /** A pool of 1236779001411 units and 1414451477871 tokens, well inside the accuracy
      condition, overpays the holder of 1219166090056 of them. */
  lemma PayoutCanExceedWorth()
    ensures Redeemed(1414451477871, 1236779001411 * WAD, 1219166090056) == Ok(1066023856600)
    ensures 1236779001411 <= ExchangeRate(1414451477871, 1236779001411 * WAD).value
    ensures 1219166090056 * (1236779001411 * WAD) < 1066023856600 * (1414451477871 * WAD)
  {
  }

  /** Minting never dilutes: the other holders' worth per token does not fall. */
  lemma MintNeverDilutes(lp: nat, before: nat, gain: nat)
    requires 0 < lp && Minted(lp, before, gain).Ok?
    ensures Minted(lp, before, gain).value * before <= gain * WAD * lp
    ensures (lp + Minted(lp, before, gain).value) * before <= lp * (before + gain * WAD)
  {
    if before != 0 {
      var q := lp * WAD * WAD / before;
      DivBounds(lp * WAD * WAD, before);
      DivBounds(q * gain, WAD);
      MintBound(Minted(lp, before, gain).value, lp, WAD, before, gain, q);
    }
    var m := Minted(lp, before, gain).value;
    assert (lp + m) * before == lp * before + m * before;
    assert lp * (before + gain * WAD) == lp * before + gain * WAD * lp;
  }

  lemma MintBound(m: nat, lp: nat, w: nat, before: nat, gain: nat, q: nat)
    requires 0 < w && m * w <= q * gain && q * before <= lp * w * w
    ensures m * before <= gain * w * lp
  {
    MulMonotone(m * w, q * gain, before);
    assert q * gain * before == q * before * gain;
    MulMonotone(q * before, lp * w * w, gain);
    assert lp * w * w * gain == gain * w * lp * w;
    assert m * w * before == m * before * w;
    MulCancel(m * before, gain * w * lp, w);
  }

  /** A depositor who redeems the minted tokens at once never gets back more than the
      gain, even though the redeeming rate rounds in the redeemer's favour. */
  lemma MintThenRedeemNeverProfits(lp: nat, before: nat, gain: nat, minted: nat, redeemed: nat)
    requires 0 < lp && Minted(lp, before, gain) == Ok(minted)
    requires Redeemed(lp + minted, before + gain * WAD, minted) == Ok(redeemed)
    requires before + gain * WAD <= ExchangeRate(lp + minted, before + gain * WAD).value * WAD
    ensures redeemed <= gain
  {
    var assets := before + gain * WAD;
    if assets != 0 {
      MintNeverDilutes(lp, before, gain);
      RedeemWithinOneUnit(lp + minted, assets, minted);
      WorthOfMinted(lp, WAD, before, gain, minted);
      if gain <= redeemed - 1 {
        MulMonotone(gain, redeemed - 1, (lp + minted) * WAD);
      }
    }
  }

  lemma WorthOfMinted(lp: nat, w: nat, before: nat, gain: nat, m: nat)
    requires m * before <= gain * w * lp
    ensures m * (before + gain * w) <= gain * ((lp + m) * w)
  {
    assert m * (before + gain * w) == m * before + m * (gain * w);
    assert gain * ((lp + m) * w) == gain * w * lp + m * (gain * w);
  }

  /** The round trip, exactly: a depositor who redeems the minted tokens at once gets back
      more than the gain if and only if the redeeming rate's remainder reaches the unit
      after it. Nothing is assumed of the pool, not even other holders. */
  lemma RoundTripProfitsIff(lp: nat, before: nat, gain: nat, minted: nat, redeemed: nat)
    requires Minted(lp, before, gain) == Ok(minted)
    requires Redeemed(lp + minted, before + gain * WAD, minted) == Ok(redeemed)
    ensures var assets := before + gain * WAD;
      gain < redeemed <==> 0 < minted && 0 < assets && Reaches(lp + minted, assets, minted, gain + 1)
  {
    var assets := before + gain * WAD;
    if 0 < minted && 0 < assets {
      PayoutReachesIff(lp + minted, assets, minted, gain + 1);
    } else if minted == 0 {
      NothingForNothing(lp, assets);
    }
  }

  lemma NothingForNothing(lp: nat, assets: nat)
    ensures Redeemed(lp, assets, 0).Ok? ==> Redeemed(lp, assets, 0).value == 0
  {
    if 0 < lp && 0 < assets {
      RedeemedIs(lp, assets, 0);
    }
  }

  /** With no tokens outstanding a deposit mints its gain one for one, so its owner can
      take all whole units left in the pool; a clean pool gives back exactly the gain. */
  lemma FirstDepositorOwnsLeftovers(before: nat, gain: nat, redeemed: nat)
    requires 0 < gain < U64_LIMIT
    requires Redeemed(gain, before + gain * WAD, gain) == Ok(redeemed)
    ensures Minted(0, before, gain) == Ok(gain)
    ensures gain + before / WAD <= redeemed
    ensures before == 0 ==> redeemed == gain
  {
    var assets := before + gain * WAD;
    RedeemBoundedBothSides(gain, assets, gain);
    Regroup(redeemed + 1, gain, WAD);
    if (redeemed + 1) * WAD <= assets {
      MulMonotone((redeemed + 1) * WAD, assets, gain);
    }
    DivBounds(before, WAD);
    if before == 0 {
      RedeemedIs(gain, assets, gain);
      CancelFactor(WAD, 1, gain * WAD);
      assert gain * WAD * WAD == WAD * (gain * WAD);
    }
  }

  lemma Regroup(x: nat, y: nat, z: nat)
    ensures x * z * y == x * (y * z)
  {
  }

  /** Without the accuracy condition the round trip can profit: these three other tokens
      and 7083380 units of theirs let a gain of 1770136794737 redeem for three more. */
  lemma RoundTripCanProfit()
    ensures Minted(3, 7083380 * WAD, 1770136794737) == Ok(749700)
    ensures Redeemed(3 + 749700, 7083380 * WAD + 1770136794737 * WAD, 749700) == Ok(1770136794740)
    ensures ExchangeRate(3 + 749700, 7083380 * WAD + 1770136794737 * WAD) == Ok(423526589712)
  {
  }
}
