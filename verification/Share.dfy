/** The arithmetic of a depositor's share: a rise in worth times amount / total, rounded down
    twice. Symbolic throughout; w stands for the scale. */
module Share {
  import opened Wad

  /** A share of a rise of at most `total` is at most the amount behind the share. */
  lemma ShareAtMost(amount: nat, total: nat, w: nat, rise: nat)
    requires 0 < total && 0 < w && rise <= total * w
    ensures rise * (amount * w / total) / w / w <= amount
  {
    var p := amount * w / total;
    DivBounds(amount * w, total);
    ProductAtMost(p, total, w, rise, amount);
    FloorsAtMost(amount, rise * p, w);
  }

  lemma ProductAtMost(p: nat, total: nat, w: nat, rise: nat, amount: nat)
    requires p * total <= amount * w && rise <= total * w
    ensures rise * p <= amount * w * w
  {
    MulMonotone(rise, total * w, p);
    MulMonotone(p * total, amount * w, w);
    Swap(total, w, p);
  }

  /** A share of a rise of exactly `total` misses the amount by less than total/w + 1. */
  lemma ShareAtLeast(amount: nat, total: nat, w: nat, slack: nat)
    requires 0 < total <= slack * w && 0 < w
    ensures amount - slack <= total * w * (amount * w / total) / w / w
  {
    var p := amount * w / total;
    DivBounds(amount * w, total);
    Missing(amount, slack, w, total, p * total);
    Swap(total, w, p);
    FloorsAtLeast(amount - slack, p * total, total * w * p, w);
  }

  lemma Missing(amount: nat, slack: nat, w: nat, total: nat, share: nat)
    requires amount * w < share + total && total <= slack * w
    ensures (amount - slack) * w <= share
  {
    Difference(amount, slack, w);
  }

  /** The credit never takes more than the rise. */
  lemma ShareWithinRise(amount: nat, total: nat, w: nat, rise: nat)
    requires 0 < total && amount <= total && 0 < w
    ensures rise * (amount * w / total) / w / w * w <= rise
  {
    var p := amount * w / total;
    WholeShare(amount, total, w);
    MulMonotone(p, w, rise);
    FloorsWithin(rise * p, rise, w);
  }

  lemma WholeShare(amount: nat, total: nat, w: nat)
    requires 0 < total && amount <= total
    ensures amount * w / total <= w
  {
    MulMonotone(amount, total, w);
    DivAtMost(w, amount * w, total);
  }

  lemma FloorsAtMost(q: nat, y: nat, w: nat)
    requires 0 < w && y <= q * w * w
    ensures y / w / w <= q
  {
    DivAtMost(q * w, y, w);
    DivAtMost(q, y / w, w);
  }

  lemma FloorsAtLeast(q: int, x: nat, y: nat, w: nat)
    requires 0 < w && y == x * w && q * w <= x
    ensures q <= y / w / w
  {
    DivAtLeast(x, y, w);
    if 0 <= q {
      DivAtLeast(q, y / w, w);
    }
  }

  lemma FloorsWithin(y: nat, rise: nat, w: nat)
    requires 0 < w && y <= w * rise
    ensures y / w / w * w <= rise
  {
    DivAtMost(rise, y, w);
    DivBounds(y / w, w);
  }

  lemma Difference(x: int, y: int, w: int)
    ensures (x - y) * w == x * w - y * w
  {
  }

  lemma Swap(x: int, y: int, z: int)
    ensures x * y * z == z * x * y
  {
  }

  /** The credit takes no more of the rise than the amount's part of the total. */
  lemma ShareIsProRata(amount: nat, total: nat, w: nat, rise: nat, p: nat, gain: nat)
    requires 0 < total && 0 < w && p == amount * w / total && gain == rise * p / w / w
    ensures gain * w * total <= rise * amount
  {
    DivBounds(amount * w, total);
    TwiceFloored(rise * p, w, gain);
    ProRata(gain, p, amount, total, w, rise);
  }

  lemma TwiceFloored(y: nat, w: nat, q: nat)
    requires 0 < w && q == y / w / w
    ensures q * w * w <= y
  {
    DivBounds(y, w);
    DivBounds(y / w, w);
    MulMonotone(q * w, y / w, w);
  }

  lemma ProRata(gain: nat, p: nat, amount: nat, total: nat, w: nat, rise: nat)
    requires 0 < w && p * total <= amount * w && gain * w * w <= rise * p
    ensures gain * w * total <= rise * amount
  {
    ScaledGain(gain, p, total, w, rise);
    ScaledShare(p, amount, total, w, rise);
    MulCancel(gain * w * total, rise * amount, w);
  }

  lemma ScaledGain(gain: nat, p: nat, total: nat, w: nat, rise: nat)
    requires gain * w * w <= rise * p
    ensures gain * w * total * w <= rise * p * total
  {
    MulMonotone(gain * w * w, rise * p, total);
    assert gain * w * w * total == gain * w * total * w;
  }

  lemma ScaledShare(p: nat, amount: nat, total: nat, w: nat, rise: nat)
    requires p * total <= amount * w
    ensures rise * p * total <= rise * amount * w
  {
    MulMonotone(p * total, amount * w, rise);
    assert rise * p * total == p * total * rise;
    assert rise * amount * w == amount * w * rise;
  }
}
