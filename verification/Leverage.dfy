/** The forward loop: each step deposits the whole wallet and borrows a percentage of it.

    `Amount(percent, a0, k)` is what the pool's wallet holds when step k begins. */
module Leverage {
  import opened Wad

  /** Borrowed against a deposit of `x`: the product is an unchecked u64 multiplication. */
  function Borrowed(percent: nat, x: nat): nat {
    WrappingMul(x, percent) / 100
  }

  function Amount(percent: nat, a0: nat, k: nat): nat {
    if k == 0 then a0 else Borrowed(percent, Amount(percent, a0, k - 1))
  }

  /** Whether the multiplication of step k leaves u64. */
  predicate Wraps(percent: nat, a0: nat, k: nat) {
    U64_LIMIT <= Amount(percent, a0, k) * percent
  }

  function Power(base: nat, k: nat): (p: nat)
    ensures 0 < base ==> 0 < p
  {
    if k == 0 then 1 else base * Power(base, k - 1)
  }

  /** Liquidity deposited by the first n steps. */
  function Deposited(percent: nat, a0: nat, n: nat): nat {
    if n == 0 then 0 else Deposited(percent, a0, n - 1) + Amount(percent, a0, n - 1)
  }

  /** A borrow never exceeds its percentage, even if the product wraps around. */
  lemma BorrowedAtMost(percent: nat, x: nat)
    ensures 100 * Borrowed(percent, x) <= x * percent
  {
  }

  /** What is borrowed when the product leaves u64: the percentage of what is left of the
      product after as many wraps as it takes. */
  lemma BorrowedWraps(percent: nat, x: nat, wraps: nat, left: nat)
    requires x * percent == wraps * 0x1_0000_0000_0000_0000 + left && left < 0x1_0000_0000_0000_0000
    ensures Borrowed(percent, x) == left / 100
  {
  }

  lemma {:induction false} AmountsDecrease(percent: nat, a0: nat, k: nat)
    requires percent <= 100
    ensures Amount(percent, a0, k) <= a0
  {
    if k == 0 {
    } else {
      AmountsDecrease(percent, a0, k - 1);
      BorrowedAtMost(percent, Amount(percent, a0, k - 1));
      MulMonotone(percent, 100, Amount(percent, a0, k - 1));
    }
  }

  /** No multiplication of a run wraps around if and only if the first one does not. */
  lemma NoWrapIffFirstFits(percent: nat, a0: nat, n: nat)
    requires percent <= 100 && 0 < n
    ensures (forall k | 0 <= k < n :: !Wraps(percent, a0, k)) <==> a0 * percent < U64_LIMIT
  {
    if a0 * percent < U64_LIMIT {
      forall k | 0 <= k < n
        ensures !Wraps(percent, a0, k)
      {
        AmountsDecrease(percent, a0, k);
        MulMonotone(Amount(percent, a0, k), a0, percent);
      }
    } else {
      assert Wraps(percent, a0, 0);
    }
  }

  /** Floor-error bound: against the exact geometric sequence a0 * (percent/100)^k, the
      amount at step k is never above and less than 100/(100 - percent) units below. The
      upper half holds even for a run that wraps around. */
  lemma GeometricBound(percent: nat, a0: nat, k: nat)
    requires percent < 100
    ensures Amount(percent, a0, k) * Power(100, k) <= a0 * Power(percent, k)
    ensures a0 * percent < U64_LIMIT ==>
      (a0 * Power(percent, k) - Amount(percent, a0, k) * Power(100, k)) * (100 - percent) < 100 * Power(100, k)
  {
    NeverAbove(percent, a0, k);
    if a0 * percent < U64_LIMIT {
      LittleBelow(percent, a0, k);
    }
  }

  lemma {:induction false} NeverAbove(percent: nat, a0: nat, k: nat)
    ensures Amount(percent, a0, k) * Power(100, k) <= a0 * Power(percent, k)
  {
    if k == 0 {
    } else {
      NeverAbove(percent, a0, k - 1);
      var x := Amount(percent, a0, k - 1);
      BorrowedAtMost(percent, x);
      GeometricStep(percent, x, Amount(percent, a0, k), a0 * Power(percent, k - 1), Power(100, k - 1));
      NextPower(a0, percent, k);
    }
  }

  lemma {:induction false} LittleBelow(percent: nat, a0: nat, k: nat)
    requires percent < 100 && a0 * percent < U64_LIMIT
    ensures (a0 * Power(percent, k) - Amount(percent, a0, k) * Power(100, k)) * (100 - percent) < 100 * Power(100, k)
  {
    if k == 0 {
    } else {
      LittleBelow(percent, a0, k - 1);
      var x := Amount(percent, a0, k - 1);
      AmountsDecrease(percent, a0, k - 1);
      NoWrapBelow(percent, x, a0);
      GeometricError(percent, x, Amount(percent, a0, k), a0 * Power(percent, k - 1), Power(100, k - 1));
      NextPower(a0, percent, k);
    }
  }

  lemma NextPower(a0: nat, percent: nat, k: nat)
    requires 0 < k
    ensures a0 * Power(percent, k) == percent * (a0 * Power(percent, k - 1))
  {
    assert a0 * (percent * Power(percent, k - 1)) == percent * (a0 * Power(percent, k - 1));
  }

  lemma NoWrapBelow(percent: nat, x: nat, a0: nat)
    requires x <= a0 && a0 * percent < U64_LIMIT
    ensures Borrowed(percent, x) == x * percent / 100
  {
    MulMonotone(x, a0, percent);
  }

  lemma GeometricStep(percent: nat, x: nat, y: nat, exact: nat, h: nat)
    requires x * h <= exact && 100 * y <= x * percent
    ensures y * (100 * h) <= percent * exact
  {
    MulMonotone(100 * y, x * percent, h);
    MulMonotone(x * h, exact, percent);
    assert x * percent * h == x * h * percent;
    assert 100 * y * h == y * (100 * h);
  }

  /** One more rounding: the error e = exact - x * h turns into percent * e + rest * h. */
  lemma GeometricError(percent: nat, x: nat, y: nat, exact: nat, h: nat)
    requires percent < 100 && 0 < h
    requires y == x * percent / 100
    requires (exact - x * h) * (100 - percent) < 100 * h
    ensures (percent * exact - y * (100 * h)) * (100 - percent) < 100 * (100 * h)
  {
    var rest := x * percent - 100 * y;
    var e := exact - x * h;
    NextError(percent, x, y, exact, h, rest);
    ErrorStaysSmall(percent, e, rest, h);
  }

  lemma NextError(percent: nat, x: nat, y: nat, exact: nat, h: nat, rest: nat)
    requires x * percent == 100 * y + rest
    ensures percent * exact - y * (100 * h) == percent * (exact - x * h) + rest * h
  {
    assert percent * (exact - x * h) == percent * exact - percent * (x * h);
    assert percent * (x * h) == x * percent * h;
    assert (100 * y + rest) * h == y * (100 * h) + rest * h;
  }

  lemma ErrorStaysSmall(percent: nat, e: int, rest: nat, h: nat)
    requires percent < 100 && 0 < h && rest < 100
    requires e * (100 - percent) < 100 * h
    ensures (percent * e + rest * h) * (100 - percent) < 100 * (100 * h)
  {
    var d := 100 - percent;
    assert (percent * e + rest * h) * d == percent * (e * d) + rest * (h * d) by {
      assert percent * e * d == percent * (e * d);
      assert rest * h * d == rest * (h * d);
    }
    MulMonotone(e * d, 100 * h, percent);
    assert e * d * percent == percent * (e * d);
    MulMonotone(rest + 1, 100, h * d);
    assert 0 < h * d;
    assert 100 * (h * d) == 100 * (100 * h) - 100 * h * percent;
  }

  /** The position is bounded by the geometric series: (100 - percent) * deposits stays
      within 100 * a0, and borrowing never outruns its percentage of the deposits. */
  lemma {:induction false} DepositsBounded(percent: nat, a0: nat, n: nat)
    requires percent <= 100
    ensures 100 * (Deposited(percent, a0, n) + Amount(percent, a0, n) - a0) <= percent * Deposited(percent, a0, n)
    ensures (100 - percent) * Deposited(percent, a0, n) <= 100 * a0
  {
    if n == 0 {
    } else {
      DepositsBounded(percent, a0, n - 1);
      BorrowedAtMost(percent, Amount(percent, a0, n - 1));
      Distribute(percent, Deposited(percent, a0, n - 1), Amount(percent, a0, n - 1));
    }
    Distribute(percent, 0, Deposited(percent, a0, n));
    Distribute(100 - percent, 0, Deposited(percent, a0, n));
  }

  lemma Distribute(percent: int, x: int, y: int)
    ensures percent * (x + y) == percent * x + y * percent
    ensures (100 - percent) * y == 100 * y - percent * y
  {
  }
}
