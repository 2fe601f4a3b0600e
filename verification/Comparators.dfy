/** The plan's comparators of `src/orchestrator/adaptive.c`, with the integer truncations of the
    source, and when they order a task list. Utilizations are compared as exact ratios. */
module Comparators {
  import opened CommonUtil
  import opened Ledgers

  const INT32_MAX: nat := 0x7fff_ffff

  /** The remainder with the sign of the dividend, as C computes it. */
  function TruncMod(x: int, m: nat): int
    requires m > 0
  {
    if x >= 0 then x % m else -((-x) % m)
  }

  /** Division that rounds toward zero. */
  function TruncDiv(x: int, d: nat): int
    requires d > 0
  {
    if x >= 0 then x / d else -((-x) / d)
  }

  /** Conversion to a 32-bit signed integer. */
  function ToInt32(x: int): int {
    (x + 0x8000_0000) % 0x1_0000_0000 - 0x8000_0000
  }

  /** Descending by period, then by runtime. */
  function CmpP(a: Attr, b: Attr): int {
    var diff := b.period - a.period;
    if diff == 0 then TruncMod(b.runtime - a.runtime, INT32_MAX) else TruncMod(diff, INT32_MAX)
  }

  /** Descending by period, then by utilization in steps of 1/10000. */
  function CmpU(a: Attr, b: Attr): int {
    if a.period != b.period then CmpP(a, b)
    else if a.period == 0 then ToInt32(b.runtime - a.runtime)
    else TruncDiv((b.runtime - a.runtime) * 10000, a.period)
  }

  /** As `CmpU`, and by policy among tasks without any parameters. */
  function CmpS(a: Attr, b: Attr): int {
    if a.period != 0 || b.period != 0 || a.runtime != 0 || b.runtime != 0 then CmpU(a, b)
    else a.policy - b.policy
  }

  // ---------------------------------------------------------------------------------------
  // What the comparisons mean
  // ---------------------------------------------------------------------------------------

  /** When `CmpP` ranks a longer period first: unless the difference is a multiple of INT32_MAX. */
  lemma PeriodRanksIff(a: Attr, b: Attr)
    requires a.period != b.period
    ensures CmpP(a, b) < 0 <==> a.period > b.period && (a.period - b.period) % INT32_MAX != 0
  {
  }

  /** Half of the 32-bit range: a difference of this size has the same sign in both directions. */
  const HALF: nat := 0x8000_0000

  /** Whether `d`, reduced to 32 bits, counts as positive. */
  predicate PositiveIn32(d: int) { 0 < d % (2 * HALF) <= HALF }

  /** When `CmpS` ranks `a` before `b`, for all inputs. */
  predicate RankedBefore(a: Attr, b: Attr) {
    if a.period != b.period then a.period > b.period && (a.period - b.period) % INT32_MAX != 0
    else if a.period != 0 then (a.runtime - b.runtime) * 10000 >= a.period
    else if a.runtime != b.runtime then PositiveIn32(a.runtime - b.runtime)
    else a.runtime == 0 && a.policy < b.policy
  }

  lemma CmpSRanksIff(a: Attr, b: Attr)
    ensures CmpS(a, b) < 0 <==> RankedBefore(a, b)
  {
    if a.period == b.period && a.period != 0 {
      TruncDivSign((b.runtime - a.runtime) * 10000, a.period);
    }
  }

  /** The order the plan is after: longer period, then higher utilization, then longer runtime, then policy. */
  predicate RanksBefore(a: Attr, b: Attr) {
    if a.period != b.period then a.period > b.period
    else if a.period != 0 then (a.runtime - b.runtime) * 10000 >= a.period
    else if a.runtime != b.runtime then a.runtime > b.runtime
    else a.runtime == 0 && a.policy < b.policy
  }

  /** No truncation changes the sign of a difference of these two. */
  predicate Comparable(a: Attr, b: Attr) {
    var d := if a.runtime > b.runtime then a.runtime - b.runtime else b.runtime - a.runtime;
    && (a.period != b.period ==> (a.period - b.period) % INT32_MAX != 0)
    && (a.period == 0 && b.period == 0 && d != 0 ==> 0 < d % (2 * HALF) < HALF)
  }

  /** Differences below the maximum of a 32-bit integer are never truncated. */
  lemma SmallDifferences(a: Attr, b: Attr)
    requires a.period - b.period < 2_147_483_647 && b.period - a.period < 2_147_483_647
    requires a.runtime - b.runtime <= 2_147_483_647 && b.runtime - a.runtime <= 2_147_483_647
    ensures Comparable(a, b)
  {
  }

  /** Both comparisons of a pair mean the intended order exactly when no truncation interferes. */
  lemma CmpSMeansIff(a: Attr, b: Attr)
    ensures Comparable(a, b)
      <==> (CmpS(a, b) < 0 <==> RanksBefore(a, b)) && (CmpS(b, a) < 0 <==> RanksBefore(b, a))
  {
    CmpSRanksIff(a, b);
    CmpSRanksIff(b, a);
    Mirrored(a.runtime - b.runtime);
    if a.period != b.period {
      MirroredPeriods(a.period - b.period);
    }
  }

  lemma Mirrored(d: int)
    ensures d % (2 * HALF) == 0 <==> -d % (2 * HALF) == 0
    ensures d % (2 * HALF) != 0 ==> -d % (2 * HALF) == 2 * HALF - d % (2 * HALF)
  {
  }

  lemma MirroredPeriods(d: int)
    ensures d % INT32_MAX == 0 <==> -d % INT32_MAX == 0
  {
  }

  /** Two items rank before each other exactly when neither has a period and their runtimes differ by
      half of the 32-bit range. */
  lemma RankedBothWaysIff(a: Attr, b: Attr)
    ensures CmpS(a, b) < 0 && CmpS(b, a) < 0
      <==> a.period == 0 && b.period == 0 && (a.runtime - b.runtime) % (2 * HALF) == HALF
  {
    CmpSRanksIff(a, b);
    CmpSRanksIff(b, a);
    Mirrored(a.runtime - b.runtime);
    if a.period == b.period && a.period != 0 {
      Opposed(a.runtime - b.runtime, a.period);
    }
  }

  lemma Opposed(d: int, p: nat)
    requires p > 0
    ensures !(d * 10000 >= p && -d * 10000 >= p)
  {
  }

  /** Of three items ranked in a row the first ranks before the last exactly when their period
      difference is no multiple of INT32_MAX or, without periods, their runtime difference stays
      positive in 32 bits. */
  lemma CmpSTransitiveIff(a: Attr, b: Attr, c: Attr)
    requires CmpS(a, b) < 0 && CmpS(b, c) < 0
    ensures CmpS(a, c) < 0 <==>
      if a.period != c.period then (a.period - c.period) % INT32_MAX != 0
      else a.period != 0
           || if a.runtime != c.runtime then PositiveIn32(a.runtime - c.runtime)
                else a.runtime == 0 && a.policy < c.policy
  {
    CmpSRanksIff(a, b);
    CmpSRanksIff(b, c);
    CmpSRanksIff(a, c);
  }

  /** Periods of 1 ns, 2 ns and 2147483648 ns are ranked pairwise but not transitively. */
  lemma PeriodOrderCanBreak()
    ensures var a, b, c := Attr(SCHED_DEADLINE, 1, 2_147_483_648), Attr(SCHED_DEADLINE, 1, 2),
      Attr(SCHED_DEADLINE, 1, 1);
      CmpS(a, b) < 0 && CmpS(b, c) < 0 && CmpS(a, c) == 0
  {
  }

  /** Three items without a period whose runtimes rank in a circle. */
  lemma RuntimesCanCycle()
    ensures var a, b, c := Attr(SCHED_FIFO, 0xC000_0000, 0), Attr(SCHED_FIFO, 0x6000_0000, 0), Attr(SCHED_FIFO, 1, 0);
      CmpS(a, b) < 0 && CmpS(b, c) < 0 && CmpS(c, a) < 0
  {
  }

  lemma TruncDivSign(x: int, d: nat)
    requires d > 0
    ensures TruncDiv(x, d) < 0 <==> x <= -(d as int)
  {
    Quotient(if x < 0 then -x else x, d);
  }

  lemma Quotient(y: nat, d: nat)
    requires d > 0
    ensures y / d >= 0 && (y / d > 0 <==> y >= d)
  {
    if y < d {
      DivModUnique(y, d, 0, y);
    } else {
      MultiplesApart(y / d, 0, d);
    }
  }

  // ---------------------------------------------------------------------------------------
  // Lists
  // ---------------------------------------------------------------------------------------

  ghost predicate AllComparable(s: seq<Attr>) {
    forall i, j :: 0 <= i < |s| && 0 <= j < |s| ==> Comparable(s[i], s[j])
  }

  /** Among comparable items `CmpS` is a strict partial order, although utilizations closer than the
      tolerance compare as equal. */
  lemma CmpSIsStrictOrder(a: Attr, b: Attr, c: Attr)
    requires Comparable(a, b) && Comparable(b, c) && Comparable(a, c)
    ensures CmpS(a, b) < 0 ==> !(CmpS(b, a) < 0)
    ensures CmpS(a, b) < 0 && CmpS(b, c) < 0 ==> CmpS(a, c) < 0
  {
    hide CmpS, Comparable;
    CmpSMeansIff(a, b);
    CmpSMeansIff(b, c);
    CmpSMeansIff(a, c);
    if a.period == b.period {
      Opposed(a.runtime - b.runtime, if a.period == 0 then 1 else a.period);
    }
  }

  /** In a list of comparable items sorted by `CmpS`, periods never increase. */
  lemma SortedPeriodsDescend(s: seq<Attr>)
    requires AllComparable(s)
    requires forall i, j :: 0 <= i < j < |s| ==> !(CmpS(s[j], s[i]) < 0)
    ensures forall i, j :: 0 <= i < j < |s| ==> s[j].period <= s[i].period
  {
    hide CmpS, Comparable;
    forall i, j | 0 <= i < j < |s| ensures s[j].period <= s[i].period {
      CmpSMeansIff(s[j], s[i]);
    }
  }

  /** Deadline tasks booked in that order keep the harmonic flag exactly when every period divides
      the largest one. */
  lemma SortedHarmonic(s: seq<Attr>, rrtime: nat)
    requires s != [] && AllComparable(s) && forall i :: 0 <= i < |s| ==>
      s[i].policy == SCHED_DEADLINE && s[i].period > 0
    requires forall i, j :: 0 <= i < j < |s| ==> !(CmpS(s[j], s[i]) < 0)
    ensures Chargeable(s, rrtime)
    ensures Booked(Empty(true), s, rrtime).harmonic <==> forall i :: 0 <= i < |s| ==> Divides(s[i].period, s[0].period)
  {
    SortedPeriodsDescend(s);
    HarmonicFlagComplete(Empty(true), s, rrtime);
  }
}
