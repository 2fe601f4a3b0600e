/** `findPeriodMatch` of `src/orchestrator/resmgnt.c`: a measured period is rounded to a fortieth of
    the next power of ten. Powers of ten and the division by forty are exact here. */
module Periods {
  import opened CommonUtil
  import opened Ledgers

  /** The first power of ten, starting from `p`, that reaches `x`. */
  function PowerFrom(x: nat, p: nat): nat
    requires p > 0
    decreases x - p
  {
    if x <= p then p else PowerFrom(x, 10 * p)
  }

  /** Ten to the ceiling of the decimal logarithm of `x`. */
  function PowerAbove(x: nat): nat { PowerFrom(x, 1) }

  /** Steps of a fortieth of `p` nearest to `x`, halves rounded up. */
  function Steps(x: nat, p: nat): nat
    requires p > 0
  {
    (80 * x + p) / (2 * p)
  }

  function FindPeriodMatch(measured: nat): nat {
    if measured == 0 then NSEC_PER_SEC
    else PowerFromBounds(measured, 1); Steps(measured, PowerAbove(measured)) * PowerAbove(measured) / 40
  }

  ghost predicate PowerOfTen(p: nat)
  {
    p == 1 || (p > 1 && p % 10 == 0 && PowerOfTen(p / 10))
  }

  lemma {:induction false} PowerFromBounds(x: nat, p: nat)
    requires p > 0
    ensures PowerFrom(x, p) >= x && PowerFrom(x, p) >= p
    ensures p < x ==> PowerFrom(x, p) < 10 * x
    ensures PowerOfTen(p) ==> PowerOfTen(PowerFrom(x, p))
    decreases x - p
  {
    if p < x {
      PowerFromBounds(x, 10 * p);
      assert (10 * p) / 10 == p && (10 * p) % 10 == 0;
      if x <= 10 * p {
        assert PowerFrom(x, 10 * p) == 10 * p;
      }
    }
  }

  /** Powers of ten are totally ordered by factors of ten. */
  lemma {:induction false} PowersSpread(p: nat, q: nat)
    requires PowerOfTen(p) && PowerOfTen(q) && p < q
    ensures 10 * p <= q
  {
    if p > 1 {
      PowersSpread(p / 10, q / 10);
    }
  }

  /** The power above a number in `(p/10, p]` is `p`. */
  lemma PowerAboveIs(x: nat, p: nat)
    requires PowerOfTen(p) && x >= 1 && x <= p < 10 * x
    ensures PowerAbove(x) == p
  {
    var q := PowerAbove(x);
    PowerFromBounds(x, 1);
    if q < p {
      PowersSpread(q, p);
    } else if p < q {
      PowersSpread(p, q);
    }
  }

  lemma PowerAboveBounds(x: nat)
    requires x >= 1
    ensures PowerOfTen(PowerAbove(x)) && x <= PowerAbove(x) < 10 * x
  {
    PowerFromBounds(x, 1);
  }

  /** Powers of ten other than 1, 10 and 100 are whole multiples of forty. */
  lemma FortyDivides(p: nat)
    requires PowerOfTen(p)
    ensures p == 1 || p == 10 || p == 100 || (p >= 1000 && p % 1000 == 0 && p == 40 * (p / 40))
  {
    if p != 1 && p != 10 && p != 100 {
      assert PowerOfTen(p / 10) && PowerOfTen(p / 10 / 10) && PowerOfTen(p / 10 / 10 / 10);
    }
  }

  /** With whole steps of size `s`, the result is the step count times the step size. */
  lemma WholeSteps(x: nat, s: nat)
    requires s > 0
    ensures Steps(x, 40 * s) == (2 * x + s) / (2 * s)
    ensures Steps(x, 40 * s) * (40 * s) / 40 == Steps(x, 40 * s) * s
    ensures 2 * (Steps(x, 40 * s) * s) <= 2 * x + s < 2 * (Steps(x, 40 * s) * s) + 2 * s
  {
    var n := (2 * x + s) / (2 * s);
    assert n * (2 * s) <= 2 * x + s < n * (2 * s) + 2 * s;
    Rearrange(n, s, 2);
    Rearrange(n, s, 80);
    Rearrange(n, s, 40);
    StepsUnique(x, 40 * s, n);
  }

  lemma Rearrange(n: nat, s: nat, c: nat)
    ensures n * (c * s) == c * (n * s)
  {
  }

  lemma StepsUnique(x: nat, p: nat, n: nat)
    requires p > 0 && n * (2 * p) <= 80 * x + p < n * (2 * p) + 2 * p
    ensures Steps(x, p) == n
  {
    Distance(n, Steps(x, p), 2 * p, 80 * x + p);
  }

  lemma Distance(n: nat, m: nat, d: nat, x: nat)
    requires d > 0 && n * d <= x < n * d + d && m * d <= x < m * d + d
    ensures n == m
  {
    MultiplesApart(n, m, d);
    MultiplesApart(m, n, d);
  }

  /** The result stays within the decade of its input, and never reaches zero. */
  lemma WithinDecade(x: nat)
    requires x >= 1
    ensures PowerAbove(x) <= 10 * FindPeriodMatch(x) <= 10 * PowerAbove(x) || x == 1
    ensures 1 <= FindPeriodMatch(x) <= PowerAbove(x)
  {
    var p := PowerAbove(x);
    PowerAboveBounds(x);
    FortyDivides(p);
    if p >= 1000 {
      var s := p / 40;
      WholeSteps(x, s);
      var n := Steps(x, p);
      assert p == 40 * s && 4 * s < x;
      assert 2 * (n * s) > 7 * s && 2 * (n * s) < 82 * s;
      CountBetween(n, s);
      assert 4 * s <= n * s <= 40 * s;
    }
  }

  lemma CountBetween(n: nat, s: nat)
    requires s > 0 && 7 * s < 2 * (n * s) < 82 * s
    ensures 4 <= n <= 40 && 4 * s <= n * s <= 40 * s
  {
    MultiplesApart(n, 4, s);
    MultiplesApart(40, n, s);
    MultiplesApart(4, n, s);
    MultiplesApart(n, 40, s);
  }

  ghost function Gap(x: nat, y: nat): nat { if x < y then y - x else x - y }

  /** Above 100 the result is a multiple of the step that no other multiple comes closer to, and it
      is at most one eighth of the input away from it. */
  lemma NearestStep(x: nat, m: nat)
    requires x > 100
    ensures PowerAbove(x) > 0 && PowerAbove(x) % 40 == 0
    ensures FindPeriodMatch(x) == Steps(x, PowerAbove(x)) * (PowerAbove(x) / 40)
    ensures Gap(FindPeriodMatch(x), x) <= Gap(m * (PowerAbove(x) / 40), x)
    ensures 8 * Gap(FindPeriodMatch(x), x) <= x
  {
    var p := PowerAbove(x);
    PowerAboveBounds(x);
    FortyDivides(p);
    var s := p / 40;
    WholeSteps(x, s);
    MultiplesApart(m, Steps(x, p), s);
    MultiplesApart(Steps(x, p), m, s);
  }

  /** A power of ten is matched by itself. */
  lemma PowerIsFixed(p: nat)
    requires PowerOfTen(p)
    ensures FindPeriodMatch(p) == p
  {
    PowerAboveIs(p, p);
    StepsUnique(p, p, 40);
  }

  lemma SecondIsPower()
    ensures PowerOfTen(NSEC_PER_SEC)
  {
    assert PowerOfTen(10) && PowerOfTen(100);
    assert PowerOfTen(1000) && PowerOfTen(10_000);
    assert PowerOfTen(100_000) && PowerOfTen(1_000_000);
    assert PowerOfTen(10_000_000) && PowerOfTen(100_000_000);
  }

  /** Matching a matched period changes nothing. */
  lemma MatchIsIdempotent(x: nat)
    ensures FindPeriodMatch(FindPeriodMatch(x)) == FindPeriodMatch(x)
  {
    if x == 0 {
      SecondIsPower();
      PowerIsFixed(NSEC_PER_SEC);
    } else {
      var p, r := PowerAbove(x), FindPeriodMatch(x);
      PowerAboveBounds(x);
      WithinDecade(x);
      FortyDivides(p);
      if 10 * r == p {
        assert PowerOfTen(p / 10);
        PowerIsFixed(r);
      } else {
        PowerAboveIs(r, p);
        if p >= 1000 {
          MatchStays(x, p / 40);
        } else {
          SmallMatchStays(x, p);
        }
      }
    }
  }

  lemma MatchStays(x: nat, s: nat)
    requires s > 0
    ensures Steps(Steps(x, 40 * s) * (40 * s) / 40, 40 * s) == Steps(x, 40 * s)
  {
    WholeSteps(x, s);
    var n := Steps(x, 40 * s);
    assert n * (2 * (40 * s)) == 80 * (n * s);
    StepsUnique(n * s, 40 * s, n);
  }

  lemma SmallMatchStays(x: nat, p: nat)
    requires p == 1 || p == 10 || p == 100
    ensures Steps(Steps(x, p) * p / 40, p) * p / 40 == Steps(x, p) * p / 40 || p == 1
  {
    if p == 10 {
      SmallTen(x);
    } else if p == 100 {
      SmallHundred(x);
    }
  }

  lemma SmallTen(x: nat)
    ensures Steps(x, 10) == 4 * x && Steps(x, 10) * 10 / 40 == x
  {
  }

  lemma SmallHundred(x: nat)
    ensures Steps(Steps(x, 100) * 100 / 40, 100) == Steps(x, 100)
  {
    var n := Steps(x, 100);
    var r: nat := n * 100 / 40;
    assert 40 * r <= 100 * n < 40 * r + 40;
    StepsUnique(r, 100, n);
  }

  /** A longer measured period is never matched to a shorter one, across decades too. */
  lemma MatchIsMonotone(x: nat, y: nat)
    requires 1 <= x <= y
    ensures FindPeriodMatch(x) <= FindPeriodMatch(y)
  {
    var p, q := PowerAbove(x), PowerAbove(y);
    PowerAboveBounds(x);
    PowerAboveBounds(y);
    WithinDecade(x);
    WithinDecade(y);
    if p == q {
      StepsMonotone(x, y, p);
    } else {
      if q < p {
        PowersSpread(q, p);
      } else {
        PowersSpread(p, q);
      }
    }
  }

  lemma StepsMonotone(x: nat, y: nat, p: nat)
    requires p > 0 && x <= y
    ensures Steps(x, p) * p / 40 <= Steps(y, p) * p / 40
  {
    var n, m := Steps(x, p), Steps(y, p);
    StepsBracket(x, p);
    StepsBracket(y, p);
    MultiplesApart(m, n, 2 * p);
    MultiplesApart(n, m, p);
  }

  lemma StepsBracket(x: nat, p: nat)
    requires p > 0
    ensures Steps(x, p) * (2 * p) <= 80 * x + p < Steps(x, p) * (2 * p) + 2 * p
  {
  }

  /** A period that was never measured counts as one second, so it ranks above every match of a shorter
      measurement and below every match of a longer one. */
  lemma UnmeasuredIsOneSecond(x: nat)
    requires x > 0
    ensures FindPeriodMatch(0) == 1_000_000_000
    ensures x <= 1_000_000_000 ==> FindPeriodMatch(x) <= FindPeriodMatch(0)
    ensures x >= 1_000_000_000 ==> FindPeriodMatch(x) >= FindPeriodMatch(0)
  {
    hide FindPeriodMatch;
    assert FindPeriodMatch(0) == 1_000_000_000 by {
      OneSecond();
    }
    assert PowerOfTen(1000) && PowerOfTen(1_000_000) && PowerOfTen(1_000_000_000) by {
      assert PowerOfTen(10) && PowerOfTen(100);
      assert PowerOfTen(10_000) && PowerOfTen(100_000);
      assert PowerOfTen(10_000_000) && PowerOfTen(100_000_000);
    }
    PowerIsFixed(1_000_000_000);
    if x <= 1_000_000_000 {
      MatchIsMonotone(x, 1_000_000_000);
    } else {
      MatchIsMonotone(1_000_000_000, x);
    }
  }

  lemma OneSecond()
    ensures FindPeriodMatch(0) == 1_000_000_000
  {
  }
}
