/** The load arithmetic of one CPU tracer: `checkUvalue` of `src/orchestrator/resmgnt.c` as a
    function on ledgers, and what folding it over a task list computes. */
module Ledgers {
  import opened CommonUtil
  import opened Sums

  const NSEC_PER_SEC: nat := 1_000_000_000
  const SCHED_PDEFAULT: nat := NSEC_PER_SEC
  const SCHED_RRTONATTR: nat := 1_000_000
  const SCHED_UKNLOAD: nat := 10
  const SCHED_UHARMONIC: nat := 3
  const MAX_UL: real := 1.0
  const INT_MAX: int := 0x7fff_ffff

  const SCHED_NORMAL: nat := 0
  const SCHED_FIFO: nat := 1
  const SCHED_RR: nat := 2
  const SCHED_BATCH: nat := 3
  const SCHED_IDLE: nat := 5
  const SCHED_DEADLINE: nat := 6

  /** The scheduling attributes a tracer looks at. */
  datatype Attr = Attr(policy: nat, runtime: nat, period: nat)

  /** A tracer's accounting fields: hyper-period, consumed time, utilization, harmonic flag. */
  datatype Ledger = Ledger(base: nat, used: nat, load: real, harmonic: bool)

  /** A freshly allocated tracer, with or without the harmonic flag of `createResTracer`. */
  function Empty(harmonic: bool): Ledger { Ledger(0, 0, 0.0, harmonic) }

  /** The period a task is charged with: the default when it has none, the round-robin slice
      when an SCHED_RR task runs longer than one slice. */
  function EffectivePeriod(a: Attr, rrtime: nat): nat {
    if a.policy == SCHED_RR && a.period != 0 && rrtime * SCHED_RRTONATTR <= a.runtime
    then rrtime * SCHED_RRTONATTR
    else if a.period == 0 then SCHED_PDEFAULT else a.period
  }

  /** A zero effective period, hence a division by zero, needs a zero round-robin slice. */
  lemma EffectivePeriodPositive(a: Attr, rrtime: nat)
    ensures EffectivePeriod(a, rrtime) == 0 <==> a.policy == SCHED_RR && a.period != 0 && rrtime == 0
  {
  }

  /** Whether the runtime counts as known; otherwise a dummy 10 percent is added. */
  predicate KnownRuntime(a: Attr) { a.policy == SCHED_DEADLINE || a.runtime != 0 }

  function HyperPeriod(base: nat, period: nat): nat {
    if base == 0 then period else LcmOf(base, period)
  }

  lemma HyperPeriodPositive(base: nat, period: nat)
    requires period > 0
    ensures HyperPeriod(base, period) > 0 && Divides(period, HyperPeriod(base, period))
    ensures base > 0 ==> Divides(base, HyperPeriod(base, period))
  {
    DividesProduct(period, 1);
    if base > 0 {
      LcmIsCommonMultiple(base, period);
    }
  }

  /** Used time before rescaling. */
  function Inflated(l: Ledger, a: Attr): nat {
    if KnownRuntime(a) then l.used else l.used + l.used * SCHED_UKNLOAD / 100
  }

  /** Time `u` consumed per `b`, expressed per `h`, by multiplying first and dividing after. */
  function Rescale(u: nat, b: nat, h: nat): nat
    requires b > 0
  {
    u * h / b
  }

  /** The ledger `checkUvalue` leaves when it adds task `a` to ledger `l`. */
  function Charge(l: Ledger, a: Attr, rrtime: nat): Ledger
    requires EffectivePeriod(a, rrtime) > 0
  {
    var period := EffectivePeriod(a, rrtime);
    var base := HyperPeriod(l.base, period);
    HyperPeriodPositive(l.base, period);
    var scaled := if l.base == 0 then Inflated(l, a) else Rescale(Inflated(l, a), l.base, base);
    var used := scaled + Rescale(a.runtime, period, base);
    Ledger(base, used, used as real / base as real,
           l.harmonic && (l.base == 0 || base == period || base == l.base))
  }

  function Min(x: int, y: int): int { if x < y then x else y }

  /** The score of a period that does not fit harmonically. */
  function Interruptions(l: Ledger, period: nat): int
    requires period > 0
  {
    Min(FloorDiv(BusyTime(l), period) + SCHED_UHARMONIC, INT_MAX)
  }

  function BusyTime(l: Ledger): real {
    l.load * l.base as real
  }

  function FloorDiv(y: real, d: nat): int
    requires d > 0
  {
    (y / d as real).Floor
  }

  /** The matching score `checkUvalue` returns; negative when the task does not fit. */
  function Score(l: Ledger, a: Attr, rrtime: nat): int
    requires EffectivePeriod(a, rrtime) > 0
  {
    var period := EffectivePeriod(a, rrtime);
    var after := Charge(l, a, rrtime);
    if MAX_UL < after.load then -1
    else if l.base == 0 then 2
    else if l.harmonic && l.base == period then 0
    else if l.harmonic && after.base == period then 1
    else if l.harmonic && after.base == l.base then 2
    else Interruptions(l, period)
  }

  /** The exact utilization a ledger stands for. */
  function LoadOf(l: Ledger): real {
    if l.base == 0 then 0.0 else l.used as real / l.base as real
  }

  /** The stored utilization is the exact one, and an unused tracer has consumed nothing. */
  predicate Consistent(l: Ledger) {
    (l.base == 0 ==> l.used == 0) && l.load == LoadOf(l)
  }

  /** The share of a CPU a task asks for. */
  function Share(a: Attr, rrtime: nat): real
    requires EffectivePeriod(a, rrtime) > 0
  {
    a.runtime as real / EffectivePeriod(a, rrtime) as real
  }

  // ---------------------------------------------------------------------------------------
  // One charge
  // ---------------------------------------------------------------------------------------

  /** Rescaling to a multiple of the base loses no remainder. */
  lemma ExactScale(u: nat, b: nat, h: nat)
    requires b > 0 && Divides(b, h)
    ensures Rescale(u, b, h) == u * (h / b)
    ensures u * (h / b) * b == u * h
  {
    var k := Cofactor(b, h);
    assert u * h == (u * k) * b;
    DividesProduct(b, u * k);
  }

  lemma ScaledRatio(u: nat, b: nat, h: nat)
    requires b > 0 && h > 0 && Divides(b, h)
    ensures Rescale(u, b, h) as real / h as real == u as real / b as real
  {
    ExactScale(u, b, h);
    var v := Rescale(u, b, h);
    assert (v * b) as real == (u * h) as real;
    CrossMultiply(v, b, u, h);
  }

  lemma CrossMultiply(v: nat, b: nat, u: nat, h: nat)
    requires b > 0 && h > 0 && v * b == u * h
    ensures v as real / h as real == u as real / b as real
  {
    var x, y, p, q := v as real, b as real, u as real, h as real;
    assert x * y == p * q;
    assert (x / q) * (q * y) == x * y;
    assert (p / y) * (q * y) == p * q;
  }

  /** Charging adds the task's share on top of the (possibly inflated) old load. */
  lemma ChargeLoad(l: Ledger, a: Attr, rrtime: nat)
    requires EffectivePeriod(a, rrtime) > 0 && Consistent(l)
    ensures Consistent(Charge(l, a, rrtime)) && Charge(l, a, rrtime).base > 0
    ensures KnownRuntime(a) ==> LoadOf(Charge(l, a, rrtime)) == LoadOf(l) + Share(a, rrtime)
    ensures LoadOf(Charge(l, a, rrtime)) >= LoadOf(l) + Share(a, rrtime)
  {
    var period := EffectivePeriod(a, rrtime);
    var base := HyperPeriod(l.base, period);
    var inflated := Inflated(l, a);
    HyperPeriodPositive(l.base, period);
    ScaledRatio(a.runtime, period, base);
    if l.base == 0 {
      assert inflated == 0;
      SumRatio(0, Rescale(a.runtime, period, base), base);
    } else {
      ScaledRatio(inflated, l.base, base);
      SumRatio(Rescale(inflated, l.base, base), Rescale(a.runtime, period, base), base);
      RatioMonotone(l.used, inflated, l.base);
    }
  }

  lemma SumRatio(x: nat, y: nat, d: nat)
    requires d > 0
    ensures (x + y) as real / d as real == x as real / d as real + y as real / d as real
  {
  }

  lemma RatioMonotone(x: nat, y: nat, d: nat)
    requires d > 0 && x <= y
    ensures x as real / d as real <= y as real / d as real
  {
  }

  /** A task is turned away exactly when the ledger would exceed its hyper-period. */
  lemma RejectedIff(l: Ledger, a: Attr, rrtime: nat)
    requires EffectivePeriod(a, rrtime) > 0 && Consistent(l)
    ensures Score(l, a, rrtime) < 0 <==> Charge(l, a, rrtime).used > Charge(l, a, rrtime).base
    ensures Score(l, a, rrtime) < 0 <==> LoadOf(Charge(l, a, rrtime)) > 1.0
    ensures KnownRuntime(a) ==> (Score(l, a, rrtime) < 0 <==> LoadOf(l) + Share(a, rrtime) > 1.0)
    ensures Score(l, a, rrtime) >= -1
  {
    ChargeLoad(l, a, rrtime);
    OverUnity(Charge(l, a, rrtime).used, Charge(l, a, rrtime).base);
    if l.base > 0 {
      InterruptionsPositive(l, EffectivePeriod(a, rrtime));
    }
  }

  lemma InterruptionsPositive(l: Ledger, period: nat)
    requires period > 0 && Consistent(l)
    ensures Interruptions(l, period) >= 0
  {
    LoadTimesBase(l);
    FloorOfRatio(BusyTime(l), l.used, period);
  }

  lemma OverUnity(x: nat, d: nat)
    requires d > 0
    ensures x as real / d as real > 1.0 <==> x > d
  {
  }

  /** A task that one ledger rejects is rejected by every ledger that carries at least its load,
      whatever hyper-periods the two have. */
  lemma RejectionIsMonotone(l: Ledger, l': Ledger, a: Attr, rrtime: nat)
    requires EffectivePeriod(a, rrtime) > 0 && Consistent(l) && Consistent(l') && KnownRuntime(a)
    requires LoadOf(l) <= LoadOf(l') && Score(l, a, rrtime) < 0
    ensures Score(l', a, rrtime) < 0
  {
    RejectedIff(l, a, rrtime);
    RejectedIff(l', a, rrtime);
  }

  /** The non-harmonic score counts how often the new period fits into the consumed time. */
  lemma NonHarmonicScore(l: Ledger, a: Attr, rrtime: nat)
    requires EffectivePeriod(a, rrtime) > 0 && Consistent(l)
    requires Score(l, a, rrtime) >= 0 && !Charge(l, a, rrtime).harmonic
    ensures Score(l, a, rrtime)
         == if l.base == 0 then 2 else Min(l.used / EffectivePeriod(a, rrtime) + SCHED_UHARMONIC, INT_MAX)
  {
    HarmonicStep(l, a, rrtime);
    if l.base > 0 {
      LoadTimesBase(l);
      InterruptionsCounted(l, EffectivePeriod(a, rrtime));
    }
  }

  /** The score of a task that fits, in terms of periods only: an unused tracer gives 2; while the tracer is
      harmonic an equal period gives 0, a longer multiple 1 and a divisor 2; anything else at least 3. */
  lemma ScoreByPeriods(l: Ledger, a: Attr, rrtime: nat)
    requires EffectivePeriod(a, rrtime) > 0 && Consistent(l) && Score(l, a, rrtime) >= 0
    ensures var p := EffectivePeriod(a, rrtime);
      Score(l, a, rrtime)
      == if l.base == 0 then 2
         else if l.harmonic && l.base == p then 0
         else if l.harmonic && Divides(l.base, p) then 1
         else if l.harmonic && Divides(p, l.base) then 2
         else Min(l.used / p + 3, 2_147_483_647)
  {
    var p := EffectivePeriod(a, rrtime);
    HarmonicStep(l, a, rrtime);
    if l.base > 0 {
      HarmonicStep(l.(harmonic := true), a, rrtime);
      LoadTimesBase(l);
      InterruptionsCounted(l, p);
    }
  }

  /** The period a task is charged with, case by case: its own or a second, unless it is a round-robin task
      with a period that runs for a slice of `rrtime` milliseconds or longer. */
  lemma EffectivePeriodCases(a: Attr, rrtime: nat)
    ensures a.period == 0 ==> EffectivePeriod(a, rrtime) == 1_000_000_000
    ensures a.period != 0 && a.policy != 2 ==> EffectivePeriod(a, rrtime) == a.period
    ensures a.period != 0 && a.policy == 2 && a.runtime < rrtime * 1_000_000 ==> EffectivePeriod(a, rrtime) == a.period
    ensures a.period != 0 && a.policy == 2 && a.runtime >= rrtime * 1_000_000 ==>
      EffectivePeriod(a, rrtime) == rrtime * 1_000_000
  {
  }

  /** A round-robin task that outlasts its slice fills a CPU by itself: it fits only an unloaded one, and only
      with exactly one slice. */
  lemma SlicedFillsCPU(l: Ledger, a: Attr, rrtime: nat)
    requires a.policy == SCHED_RR && a.period != 0 && 0 < rrtime * 1_000_000 <= a.runtime && Consistent(l)
    ensures EffectivePeriod(a, rrtime) > 0 && Share(a, rrtime) >= 1.0
    ensures Score(l, a, rrtime) >= 0 <==> LoadOf(l) == 0.0 && a.runtime == rrtime * 1_000_000
  {
    RejectedIff(l, a, rrtime);
    Unity(a.runtime, rrtime * 1_000_000);
  }

  lemma Unity(x: nat, d: nat)
    requires 0 < d <= x
    ensures x as real / d as real >= 1.0 && (x as real / d as real == 1.0 <==> x == d)
  {
    OverUnity(x, d);
  }

  /** A task of unknown runtime adds a tenth of the time consumed so far, rounded down, and no more; an
      unused tracer stays empty. */
  lemma UnknownAddsTenth(l: Ledger, a: Attr, rrtime: nat)
    requires EffectivePeriod(a, rrtime) > 0 && Consistent(l) && a.policy != SCHED_DEADLINE && a.runtime == 0
    ensures l.base == 0 ==> LoadOf(Charge(l, a, rrtime)) == 0.0
    ensures l.base > 0 ==> LoadOf(Charge(l, a, rrtime)) == (l.used + l.used / 10) as real / l.base as real
  {
    var h := HyperPeriod(l.base, EffectivePeriod(a, rrtime));
    HyperPeriodPositive(l.base, EffectivePeriod(a, rrtime));
    Tenth(l.used);
    NoRuntime(EffectivePeriod(a, rrtime), h);
    if l.base > 0 {
      ScaledRatio(Inflated(l, a), l.base, h);
    }
  }

  lemma Tenth(u: nat)
    ensures u * SCHED_UKNLOAD / 100 == u / 10
  {
  }

  lemma NoRuntime(p: nat, h: nat)
    requires p > 0
    ensures Rescale(0, p, h) == 0
  {
  }

  lemma InterruptionsCounted(l: Ledger, period: nat)
    requires period > 0 && BusyTime(l) == l.used as real
    ensures Interruptions(l, period) == Min(l.used / period + SCHED_UHARMONIC, INT_MAX)
  {
    FloorOfRatio(BusyTime(l), l.used, period);
  }

  lemma LoadTimesBase(l: Ledger)
    requires Consistent(l)
    ensures BusyTime(l) == l.used as real
  {
    if l.base > 0 {
      TimesBack(l.used, l.base);
    }
  }

  lemma TimesBack(x: nat, d: nat)
    requires d > 0
    ensures (x as real / d as real) * d as real == x as real
  {
  }

  lemma FloorOfRatio(y: real, x: nat, d: nat)
    requires d > 0 && y == x as real
    ensures FloorDiv(y, d) == x / d
  {
    var q := x / d;
    RatioBetween(x, d, q);
  }

  lemma RatioBetween(x: nat, d: nat, q: nat)
    requires d > 0 && q * d <= x < q * d + d
    ensures q as real <= x as real / d as real < q as real + 1.0
  {
    var r := x as real / d as real;
    RealFactor(r - q as real, d as real, (x - q * d) as real);
  }

  lemma RealFactor(e: real, d: real, rest: real)
    requires d > 0.0 && e * d == rest && 0.0 <= rest < d
    ensures 0.0 <= e < 1.0
  {
  }

  // ---------------------------------------------------------------------------------------
  // A whole task list
  // ---------------------------------------------------------------------------------------

  ghost predicate Chargeable(s: seq<Attr>, rrtime: nat) {
    forall i :: 0 <= i < |s| ==> EffectivePeriod(s[i], rrtime) > 0
  }

  ghost predicate AllKnown(s: seq<Attr>) {
    forall i :: 0 <= i < |s| ==> KnownRuntime(s[i])
  }

  /** The ledger after charging the tasks of `s` in order. */
  ghost function Booked(start: Ledger, s: seq<Attr>, rrtime: nat): Ledger
    requires Chargeable(s, rrtime)
  {
    if s == [] then start
    else Charge(Booked(start, s[..|s|-1], rrtime), s[|s|-1], rrtime)
  }

  /** The least common multiple of all effective periods. */
  ghost function CommonPeriod(s: seq<Attr>, rrtime: nat): nat {
    if s == [] then 1
    else LcmOf(CommonPeriod(s[..|s|-1], rrtime), EffectivePeriod(s[|s|-1], rrtime))
  }

  /** The time one task consumes in a window of length `h`. */
  function PortionOf(a: Attr, h: nat, rrtime: nat): nat {
    if EffectivePeriod(a, rrtime) == 0 then 0 else InWindow(a.runtime, h, EffectivePeriod(a, rrtime))
  }

  function InWindow(runtime: nat, h: nat, period: nat): nat
    requires period > 0
  {
    runtime * (h / period)
  }

  function Portion(h: nat, rrtime: nat): Attr -> nat {
    a => PortionOf(a, h, rrtime)
  }

  /** The time the tasks of `s` consume in a window of length `h`. */
  ghost function Demand(s: seq<Attr>, h: nat, rrtime: nat): nat {
    SumBy(s, Portion(h, rrtime))
  }

  ghost function TotalShare(s: seq<Attr>, rrtime: nat): real
    requires Chargeable(s, rrtime)
  {
    if s == [] then 0.0
    else TotalShare(s[..|s|-1], rrtime) + Share(s[|s|-1], rrtime)
  }

  /** `h` is a multiple of every effective period. */
  ghost predicate CommonMultiple(s: seq<Attr>, h: nat, rrtime: nat) {
    forall i :: 0 <= i < |s| ==> Divides(EffectivePeriod(s[i], rrtime), h)
  }

  lemma {:induction false} CommonPeriodIsJoin(s: seq<Attr>, rrtime: nat, m: nat)
    ensures Divides(CommonPeriod(s, rrtime), m) <==> CommonMultiple(s, m, rrtime)
  {
    if s == [] {
    } else {
      CommonPeriodIsJoin(s[..|s|-1], rrtime, m);
      LcmIsJoin(CommonPeriod(s[..|s|-1], rrtime), EffectivePeriod(s[|s|-1], rrtime), m);
      assert forall i :: 0 <= i < |s|-1 ==> s[..|s|-1][i] == s[i];
    }
  }

  lemma {:induction false} CommonPeriodPositive(s: seq<Attr>, rrtime: nat)
    requires Chargeable(s, rrtime)
    ensures CommonPeriod(s, rrtime) > 0
    ensures CommonMultiple(s, CommonPeriod(s, rrtime), rrtime)
  {
    if s == [] {
    } else {
      CommonPeriodPositive(s[..|s|-1], rrtime);
      LcmIsCommonMultiple(CommonPeriod(s[..|s|-1], rrtime), EffectivePeriod(s[|s|-1], rrtime));
    }
    DividesProduct(CommonPeriod(s, rrtime), 1);
    CommonPeriodIsJoin(s, rrtime, CommonPeriod(s, rrtime));
  }

  /** Demand in a longer window that is a multiple of the shorter one. */
  lemma {:induction false} DemandScales(s: seq<Attr>, b: nat, h: nat, rrtime: nat)
    requires Chargeable(s, rrtime) && CommonMultiple(s, b, rrtime) && b > 0 && Divides(b, h)
    ensures Demand(s, h, rrtime) == Demand(s, b, rrtime) * (h / b)
  {
    if s == [] {
    } else {
      var front, a := s[..|s|-1], s[|s|-1];
      DemandScales(front, b, h, rrtime);
      PortionScales(a, b, h, rrtime);
      Distribute(Demand(front, b, rrtime), PortionOf(a, b, rrtime), h / b);
    }
  }

  lemma PortionScales(a: Attr, b: nat, h: nat, rrtime: nat)
    requires EffectivePeriod(a, rrtime) > 0 && Divides(EffectivePeriod(a, rrtime), b) && b > 0 && Divides(b, h)
    ensures PortionOf(a, h, rrtime) == PortionOf(a, b, rrtime) * (h / b)
  {
    var p := EffectivePeriod(a, rrtime);
    var k := Cofactor(b, h);
    var j := Cofactor(p, b);
    assert h == (k * j) * p;
    DividesProduct(p, k * j);
    assert a.runtime * (k * j) == (a.runtime * j) * k;
  }

  /** The base is the least common multiple of the periods, whatever the runtimes are. */
  lemma {:induction false} BookedBase(start: Ledger, s: seq<Attr>, rrtime: nat)
    requires Chargeable(s, rrtime) && start.base == 0
    ensures Booked(start, s, rrtime).base == if s == [] then 0 else CommonPeriod(s, rrtime)
  {
    if s != [] {
      BookedBase(start, s[..|s|-1], rrtime);
      CommonPeriodPositive(s[..|s|-1], rrtime);
      if |s| == 1 {
        LcmOne(EffectivePeriod(s[0], rrtime));
      }
    }
  }

  /** Known-runtime tasks charged to an empty tracer: the base is the least common multiple of the
      periods and the used time is the exact demand; no division loses a remainder. */
  lemma {:induction false} BookedExactly(start: Ledger, s: seq<Attr>, rrtime: nat)
    requires Chargeable(s, rrtime) && AllKnown(s)
    requires start.base == 0 && start.used == 0
    ensures s != [] ==> Booked(start, s, rrtime).base == CommonPeriod(s, rrtime)
    ensures Booked(start, s, rrtime).used == Demand(s, CommonPeriod(s, rrtime), rrtime)
  {
    if s == [] {
    } else {
      var front, a := s[..|s|-1], s[|s|-1];
      var before := Booked(start, front, rrtime);
      BookedExactly(start, front, rrtime);
      CommonPeriodPositive(front, rrtime);
      ChargeExactly(before, a, rrtime);
      if front == [] {
        LcmOne(EffectivePeriod(a, rrtime));
        assert Demand(front, CommonPeriod(s, rrtime), rrtime) == 0;
      } else {
        HyperPeriodPositive(before.base, EffectivePeriod(a, rrtime));
        DemandScales(front, before.base, CommonPeriod(s, rrtime), rrtime);
      }
    }
  }

  /** One known charge in whole numbers: the old time rescaled plus the task's portion. */
  lemma ChargeExactly(l: Ledger, a: Attr, rrtime: nat)
    requires EffectivePeriod(a, rrtime) > 0 && KnownRuntime(a)
    ensures Charge(l, a, rrtime).used
         == (if l.base == 0 then l.used else l.used * (Charge(l, a, rrtime).base / l.base))
          + PortionOf(a, Charge(l, a, rrtime).base, rrtime)
  {
    var p := EffectivePeriod(a, rrtime);
    var h := HyperPeriod(l.base, p);
    HyperPeriodPositive(l.base, p);
    ExactScale(a.runtime, p, h);
    if l.base > 0 {
      ExactScale(l.used, l.base, h);
    }
  }

  lemma LcmOne(p: nat)
    requires p > 0
    ensures LcmOf(1, p) == p
  {
    DividesProduct(p, 1);
    LcmIsJoin(1, p, p);
    LcmIsCommonMultiple(1, p);
    DividesAntisymmetric(LcmOf(1, p), p);
  }

  /** The same statement as an exact utilization, for a tracer that already carries load. */
  lemma {:induction false} BookedLoad(start: Ledger, s: seq<Attr>, rrtime: nat)
    requires Chargeable(s, rrtime) && Consistent(start)
    ensures Consistent(Booked(start, s, rrtime))
    ensures AllKnown(s) ==> LoadOf(Booked(start, s, rrtime)) == LoadOf(start) + TotalShare(s, rrtime)
    ensures forall k :: 0 <= k <= |s| ==> LoadOf(Booked(start, s[..k], rrtime)) <= LoadOf(Booked(start, s, rrtime))
    ensures Booked(start, s, rrtime).base == 0 ==> start.base == 0 && s == []
  {
    if s == [] {
    } else {
      var front := s[..|s|-1];
      BookedLoad(start, front, rrtime);
      ChargeLoad(Booked(start, front, rrtime), s[|s|-1], rrtime);
      assert Share(s[|s|-1], rrtime) >= 0.0;
      forall k | 0 <= k <= |s|
        ensures LoadOf(Booked(start, s[..k], rrtime)) <= LoadOf(Booked(start, s, rrtime))
      {
        if k < |s| {
          assert s[..k] == front[..k];
        } else {
          assert s[..k] == s;
        }
      }
    }
  }

  // ---------------------------------------------------------------------------------------
  // Order independence
  // ---------------------------------------------------------------------------------------

  lemma CommonPeriodPermutes(s: seq<Attr>, t: seq<Attr>, rrtime: nat)
    requires Chargeable(s, rrtime) && Chargeable(t, rrtime)
    requires forall a :: a in s <==> a in t
    ensures CommonPeriod(s, rrtime) == CommonPeriod(t, rrtime)
  {
    var x, y := CommonPeriod(s, rrtime), CommonPeriod(t, rrtime);
    CommonPeriodPositive(s, rrtime);
    CommonPeriodPositive(t, rrtime);
    forall i | 0 <= i < |s| ensures Divides(EffectivePeriod(s[i], rrtime), y) {
      assert s[i] in t;
    }
    forall i | 0 <= i < |t| ensures Divides(EffectivePeriod(t[i], rrtime), x) {
      assert t[i] in s;
    }
    CommonPeriodIsJoin(s, rrtime, y);
    CommonPeriodIsJoin(t, rrtime, x);
    DividesAntisymmetric(x, y);
  }

  /** The order in which known-runtime tasks reach an empty tracer does not matter. */
  lemma BookingOrderIrrelevant(start: Ledger, s: seq<Attr>, t: seq<Attr>, rrtime: nat)
    requires Chargeable(s, rrtime) && AllKnown(s) && multiset(s) == multiset(t)
    requires start.base == 0 && start.used == 0 && Consistent(start)
    ensures Chargeable(t, rrtime)
    ensures Booked(start, s, rrtime).base == Booked(start, t, rrtime).base
    ensures Booked(start, s, rrtime).used == Booked(start, t, rrtime).used
    ensures Booked(start, s, rrtime).load == Booked(start, t, rrtime).load
  {
    SameElements(s, t);
    assert |multiset(s)| == |multiset(t)|;
    BookedExactly(start, s, rrtime);
    BookedExactly(start, t, rrtime);
    BookedLoad(start, s, rrtime);
    BookedLoad(start, t, rrtime);
    CommonPeriodPermutes(s, t, rrtime);
    SumPermutes(s, t, Portion(CommonPeriod(s, rrtime), rrtime));
  }

  lemma SameElements(s: seq<Attr>, t: seq<Attr>)
    requires multiset(s) == multiset(t)
    ensures forall a :: a in s <==> a in t
    ensures forall i :: 0 <= i < |t| ==> t[i] in s
  {
    forall a ensures a in s <==> a in t {
      assert a in s <==> a in multiset(s);
      assert a in t <==> a in multiset(t);
    }
  }

  // ---------------------------------------------------------------------------------------
  // More tasks, more load
  // ---------------------------------------------------------------------------------------

  /** `more` stands over a multiple of the base of `l` and carries its used time, and with `gap` more than that. */
  ghost predicate Carries(more: Ledger, l: Ledger, gap: nat) {
    if l.base == 0 then l.used == 0 && gap <= more.used && (more.base == 0 ==> more.used == 0)
    else more.base > 0 && Divides(l.base, more.base) && l.used * (more.base / l.base) + gap <= more.used
  }

  /** A charge in whole numbers, unknown runtimes included. */
  lemma ChargedUsed(l: Ledger, a: Attr, rrtime: nat)
    requires EffectivePeriod(a, rrtime) > 0
    ensures var base := Charge(l, a, rrtime).base;
      && base > 0 && Divides(EffectivePeriod(a, rrtime), base) && (l.base > 0 ==> Divides(l.base, base))
      && Charge(l, a, rrtime).used
           == Inflated(l, a) * (if l.base == 0 then 1 else base / l.base)
            + a.runtime * (base / EffectivePeriod(a, rrtime))
  {
    var p := EffectivePeriod(a, rrtime);
    HyperPeriodPositive(l.base, p);
    ExactScale(a.runtime, p, HyperPeriod(l.base, p));
    if l.base > 0 {
      ExactScale(Inflated(l, a), l.base, HyperPeriod(l.base, p));
    }
  }

  /** The dummy load of an unknown runtime, rounded down, is no less over a finer base. */
  lemma InflatedCarries(more: Ledger, l: Ledger, c: nat, gap: nat, a: Attr)
    requires l.used * c + gap <= more.used
    ensures Inflated(l, a) * c + gap <= Inflated(more, a)
  {
    var tenth := l.used * SCHED_UKNLOAD / 100;
    TenthScales(l.used, c, more.used);
    Distribute(l.used, tenth, c);
  }

  lemma TenthScales(u: nat, c: nat, v: nat)
    requires u * c <= v
    ensures (u * SCHED_UKNLOAD / 100) * c <= v * SCHED_UKNLOAD / 100
  {
    var tenth := u / 10;
    assert u * SCHED_UKNLOAD / 100 == tenth && v * SCHED_UKNLOAD / 100 == v / 10;
    MultiplesApart(tenth * 10, u, c);
    assert (tenth * 10) * c == (tenth * c) * 10;
  }

  /** Factors of a chain of multiples. */
  lemma Factors(a: nat, b: nat, c: nat)
    requires a > 0 && b > 0 && Divides(a, b) && Divides(b, c)
    ensures c / a == (b / a) * (c / b) && Divides(a, c)
  {
    var k := Cofactor(a, b);
    var j := Cofactor(b, c);
    Associate(j, k, a);
    DividesProduct(a, j * k);
  }

  lemma ScaledUp(x: nat, c: nat, gap: nat, y: nat, k: nat)
    requires x * c + gap <= y && k > 0
    ensures x * (c * k) + gap <= y * k
  {
    MultiplesApart(x * c + gap, y, k);
    Distribute(x * c, gap, k);
    Associate(x, c, k);
    MultiplesApart(1, k, gap);
  }

  /** The same charge on both keeps the relation. */
  lemma ChargeCarries(more: Ledger, l: Ledger, gap: nat, a: Attr, rrtime: nat)
    requires EffectivePeriod(a, rrtime) > 0 && Carries(more, l, gap)
    ensures Carries(Charge(more, a, rrtime), Charge(l, a, rrtime), gap)
  {
    hide Charge, Inflated, EffectivePeriod, Divides;
    var p, r := EffectivePeriod(a, rrtime), a.runtime;
    var h, h' := Charge(l, a, rrtime).base, Charge(more, a, rrtime).base;
    ChargedUsed(l, a, rrtime);
    ChargedUsed(more, a, rrtime);
    BasesCarry(more, l, gap, a, rrtime);
    var k := h' / h;
    Factors(p, h, h');
    Regrouped(r, h / p, k);
    if l.base > 0 {
      var c, j, j' := more.base / l.base, h / l.base, h' / more.base;
      InflatedCarries(more, l, c, gap, a);
      Cofactors(h', more.base);
      Factors(l.base, more.base, h');
      Factors(l.base, h, h');
      ScaledSums(Inflated(l, a), Inflated(more, a), r * (h / p), c, j, j', k, gap);
    } else {
      NothingInflated(l, more, a);
      Untouched(Inflated(more, a), if more.base == 0 then 1 else h' / more.base, gap, h', more.base);
    }
  }

  lemma ScaledSums(x: nat, y: nat, z: nat, c: nat, j: nat, j': nat, k: nat, gap: nat)
    requires x * c + gap <= y && j' > 0 && c * j' == j * k
    ensures (x * j + z) * k + gap <= y * j' + z * k
  {
    ScaledUp(x, c, gap, y, j');
    Regrouped(x, j, k);
    Distribute(x * j, z, k);
  }

  lemma NothingInflated(l: Ledger, more: Ledger, a: Attr)
    requires l.used == 0
    ensures Inflated(l, a) == 0 && Inflated(more, a) >= more.used
  {
  }

  lemma Regrouped(x: nat, j: nat, k: nat)
    ensures x * (j * k) == (x * j) * k
  {
  }

  lemma Cofactors(h: nat, b: nat)
    requires b > 0 && h > 0 && Divides(b, h)
    ensures h / b > 0
  {
    var k := Cofactor(b, h);
  }

  lemma Untouched(x: nat, f: nat, gap: nat, h: nat, b: nat)
    requires gap <= x && h > 0 && (b == 0 ==> f == 1) && (b > 0 ==> Divides(b, h) && f == h / b)
    ensures gap <= x * f
  {
    if b > 0 {
      Cofactors(h, b);
    }
    MultiplesApart(1, f, x);
  }

  lemma BasesCarry(more: Ledger, l: Ledger, gap: nat, a: Attr, rrtime: nat)
    requires EffectivePeriod(a, rrtime) > 0 && Carries(more, l, gap)
    ensures Divides(Charge(l, a, rrtime).base, Charge(more, a, rrtime).base)
  {
    var p := EffectivePeriod(a, rrtime);
    HyperPeriodPositive(more.base, p);
    if l.base > 0 {
      DividesTransitive(l.base, more.base, HyperPeriod(more.base, p));
      LcmIsJoin(l.base, p, HyperPeriod(more.base, p));
    }
  }

  /** A further charge adds to the gap if its runtime is positive. */
  lemma ExtraCarries(more: Ledger, l: Ledger, gap: nat, a: Attr, rrtime: nat)
    requires EffectivePeriod(a, rrtime) > 0 && Carries(more, l, gap)
    ensures Carries(Charge(more, a, rrtime), l, if a.runtime > 0 then gap + 1 else gap)
  {
    var p := EffectivePeriod(a, rrtime);
    var h := Charge(more, a, rrtime).base;
    ChargedUsed(more, a, rrtime);
    Cofactors(h, p);
    MultiplesApart(1, h / p, a.runtime);
    if more.base > 0 {
      Cofactors(h, more.base);
    }
    if l.base > 0 {
      ScaledUp(l.used, more.base / l.base, gap, more.used, h / more.base);
      Factors(l.base, more.base, h);
      MultiplesApart(more.used, Inflated(more, a), h / more.base);
    } else {
      Untouched(Inflated(more, a), if more.base == 0 then 1 else h / more.base, gap, h, more.base);
    }
  }

  /** What carries more is loaded at least as much, and with a gap more. */
  lemma CarriedLoad(more: Ledger, l: Ledger, gap: nat)
    requires Carries(more, l, gap)
    ensures LoadOf(l) <= LoadOf(more) && (gap > 0 ==> LoadOf(l) < LoadOf(more))
  {
    if l.base > 0 {
      var c := Cofactor(l.base, more.base);
      DividesBounded(l.base, more.base);
      assert more.base == c * l.base && c > 0;
      RatioScales(l.used, l.base, c);
      RatioBelow(l.used * c, more.used, more.base);
    } else if more.base > 0 {
      RatioBelow(0, more.used, more.base);
    }
  }

  lemma RatioScales(u: nat, b: nat, c: nat)
    requires b > 0 && c > 0 && c * b > 0
    ensures u as real / b as real == (u * c) as real / (c * b) as real
  {
    CrossMultiply(u, c * b, u * c, b);
  }

  lemma RatioBelow(x: nat, y: nat, d: nat)
    requires d > 0
    ensures x <= y ==> x as real / d as real <= y as real / d as real
    ensures x < y ==> x as real / d as real < y as real / d as real
  {
  }

  // ---------------------------------------------------------------------------------------
  // The harmonic flag
  // ---------------------------------------------------------------------------------------

  /** What the flag promises about the tasks booked so far: the base is one of the periods and
      every period divides it. */
  ghost predicate HarmonicBase(base: nat, s: seq<Attr>, rrtime: nat) {
    && CommonMultiple(s, base, rrtime)
    && exists i :: 0 <= i < |s| && EffectivePeriod(s[i], rrtime) == base
  }

  /** The least common multiple is itself one of the periods exactly when one period is a multiple
      of all of them. */
  lemma HarmonicBaseIff(s: seq<Attr>, rrtime: nat)
    requires Chargeable(s, rrtime) && s != []
    ensures HarmonicBase(CommonPeriod(s, rrtime), s, rrtime)
      <==> exists i :: 0 <= i < |s| && CommonMultiple(s, EffectivePeriod(s[i], rrtime), rrtime)
  {
    var h := CommonPeriod(s, rrtime);
    CommonPeriodPositive(s, rrtime);
    if i :| 0 <= i < |s| && CommonMultiple(s, EffectivePeriod(s[i], rrtime), rrtime) {
      CommonPeriodIsJoin(s, rrtime, EffectivePeriod(s[i], rrtime));
      DividesAntisymmetric(h, EffectivePeriod(s[i], rrtime));
    }
  }

  /** One charge keeps the flag exactly when one of base and period divides the other. */
  lemma HarmonicStep(l: Ledger, a: Attr, rrtime: nat)
    requires EffectivePeriod(a, rrtime) > 0
    ensures Charge(l, a, rrtime).harmonic
      <==> (l.harmonic && (l.base == 0 || Divides(l.base, EffectivePeriod(a, rrtime))
                                       || Divides(EffectivePeriod(a, rrtime), l.base)))
    ensures l.harmonic && l.base == EffectivePeriod(a, rrtime) ==> Charge(l, a, rrtime).base == l.base
    ensures l.base > 0 ==> (Divides(EffectivePeriod(a, rrtime), l.base) <==> Charge(l, a, rrtime).base == l.base)
    ensures l.base > 0 ==>
      (Divides(l.base, EffectivePeriod(a, rrtime)) <==> Charge(l, a, rrtime).base == EffectivePeriod(a, rrtime))
  {
    var b, p := l.base, EffectivePeriod(a, rrtime);
    if b > 0 {
      DividesProduct(b, 1);
      DividesProduct(p, 1);
      LcmIsCommonMultiple(b, p);
      LcmIsJoin(b, p, p);
      LcmIsJoin(b, p, b);
      if Divides(LcmOf(b, p), p) {
        DividesAntisymmetric(LcmOf(b, p), p);
      }
      if Divides(LcmOf(b, p), b) {
        DividesAntisymmetric(LcmOf(b, p), b);
      }
    }
  }

  /** While the flag is set, it means what it says; once cleared it stays cleared. */
  lemma {:induction false} HarmonicFlagSound(start: Ledger, s: seq<Attr>, rrtime: nat)
    requires Chargeable(s, rrtime) && start.base == 0 && s != []
    ensures Booked(start, s, rrtime).harmonic ==> HarmonicBase(Booked(start, s, rrtime).base, s, rrtime)
    ensures forall k :: 0 <= k <= |s| && !Booked(start, s[..k], rrtime).harmonic ==> !Booked(start, s, rrtime).harmonic
    ensures Booked(start, s, rrtime).base > 0
  {
    var front, a := s[..|s|-1], s[|s|-1];
    var before, after := Booked(start, front, rrtime), Booked(start, s, rrtime);
    assert s == front + [a];
    if front != [] {
      HarmonicFlagSound(start, front, rrtime);
    }
    HarmonicSoundStep(before, front, a, rrtime);
    forall k | 0 <= k <= |s| && !Booked(start, s[..k], rrtime).harmonic
      ensures !after.harmonic
    {
      if k < |s| {
        assert s[..k] == front[..k];
        assert k == |front| ==> front[..k] == front;
        assert k == 0 ==> front[..k] == [];
      } else {
        assert s[..k] == s;
      }
    }
  }

  lemma HarmonicSoundStep(l: Ledger, front: seq<Attr>, a: Attr, rrtime: nat)
    requires EffectivePeriod(a, rrtime) > 0 && (l.base == 0 <==> front == [])
    requires front != [] && l.harmonic ==> HarmonicBase(l.base, front, rrtime)
    ensures Charge(l, a, rrtime).harmonic ==>
              l.harmonic && HarmonicBase(Charge(l, a, rrtime).base, front + [a], rrtime)
    ensures Charge(l, a, rrtime).base > 0
  {
    var p := EffectivePeriod(a, rrtime);
    HyperPeriodPositive(l.base, p);
    HarmonicStep(l, a, rrtime);
    DividesProduct(p, 1);
    if front != [] && Charge(l, a, rrtime).harmonic {
      HarmonicBaseExtends(l.base, front, a, rrtime);
    }
    if front == [] {
      assert EffectivePeriod((front + [a])[0], rrtime) == p;
    }
  }

  lemma HarmonicBaseExtends(base: nat, front: seq<Attr>, a: Attr, rrtime: nat)
    requires base > 0 && EffectivePeriod(a, rrtime) > 0 && HarmonicBase(base, front, rrtime)
    requires Divides(base, EffectivePeriod(a, rrtime)) || Divides(EffectivePeriod(a, rrtime), base)
    ensures HarmonicBase(if Divides(EffectivePeriod(a, rrtime), base) then base else EffectivePeriod(a, rrtime),
                         front + [a], rrtime)
  {
    var s, p := front + [a], EffectivePeriod(a, rrtime);
    if Divides(p, base) {
      var i :| 0 <= i < |front| && EffectivePeriod(front[i], rrtime) == base;
      assert EffectivePeriod(s[i], rrtime) == base;
    } else {
      DividesProduct(p, 1);
      forall i | 0 <= i < |s| ensures Divides(EffectivePeriod(s[i], rrtime), p) {
        if i < |front| {
          DividesTransitive(EffectivePeriod(front[i], rrtime), base, p);
        }
      }
      assert EffectivePeriod(s[|front|], rrtime) == p;
    }
  }

  /** Largest period first, which is the order the plan sorts into. */
  ghost predicate PeriodsDescend(s: seq<Attr>, rrtime: nat) {
    forall i, j :: 0 <= i < j < |s| ==> EffectivePeriod(s[j], rrtime) <= EffectivePeriod(s[i], rrtime)
  }

  /** Charged largest period first, the flag survives exactly when every period divides the largest. */
  lemma {:induction false} HarmonicFlagComplete(start: Ledger, s: seq<Attr>, rrtime: nat)
    requires Chargeable(s, rrtime) && start.base == 0 && start.harmonic && s != []
    requires PeriodsDescend(s, rrtime)
    ensures Booked(start, s, rrtime).harmonic <==> CommonMultiple(s, EffectivePeriod(s[0], rrtime), rrtime)
    ensures Booked(start, s, rrtime).harmonic ==> Booked(start, s, rrtime).base == EffectivePeriod(s[0], rrtime)
  {
    var front, a := s[..|s|-1], s[|s|-1];
    var before := Booked(start, front, rrtime);
    var p, largest := EffectivePeriod(a, rrtime), EffectivePeriod(s[0], rrtime);
    HarmonicStep(before, a, rrtime);
    DividesProduct(largest, 1);
    if front != [] {
      HarmonicFlagComplete(start, front, rrtime);
      assert front[0] == s[0];
      assert p <= largest;
      if before.harmonic && Divides(largest, p) {
        DividesBounded(largest, p);
        assert p == largest;
      }
      assert forall i :: 0 <= i < |front| ==> front[i] == s[i];
    }
  }

  // ---------------------------------------------------------------------------------------
  // Machine words
  // ---------------------------------------------------------------------------------------

  const WORD: nat := 0x1_0000_0000_0000_0000

  /** A product divided, as the machine computes it. */
  function RescaledWord(u: nat, h: nat, b: nat): nat
    requires b > 0
  {
    u * h % WORD / b
  }

  function InflatedWord(used: nat, known: bool): nat {
    if known then used else (used + RescaledWord(used, SCHED_UKNLOAD, 100)) % WORD
  }

  /** `checkUvalue`'s integer part with every product and sum reduced to 64 bits, as the machine computes
      it; `known` tells whether the runtime is. */
  function ChargedWords(base: nat, used: nat, runtime: nat, period: nat, known: bool): (nat, nat)
    requires 0 < period
  {
    var inflated := InflatedWord(used, known);
    if base == 0 then (period, (inflated + RescaledWord(runtime, period, period)) % WORD)
    else
      var g := GcdOf(base, period);
      GcdDividesBoth(base, period);
      var hyper := ((base / g) * period) % WORD;
      (hyper, (RescaledWord(inflated, hyper, base) + RescaledWord(runtime, hyper, period)) % WORD)
  }

  /** While hyper-period, runtime and consumed time stay below 2^32 ns and the tracer is within capacity,
      nothing wraps, so the 64-bit computation is the exact one, for unused tracers and unknown runtimes
      too. The runtime may exceed the period, as it does for a round-robin task longer than its slice. */
  lemma WordsAreExact(l: Ledger, a: Attr, rrtime: nat)
    requires EffectivePeriod(a, rrtime) > 0
    requires l.used <= l.base && Inflated(l, a) < 0x1_0000_0000 && a.runtime < 0x1_0000_0000
    requires HyperPeriod(l.base, EffectivePeriod(a, rrtime)) < 0x1_0000_0000
    ensures ChargedWords(l.base, l.used, a.runtime, EffectivePeriod(a, rrtime), KnownRuntime(a))
         == (Charge(l, a, rrtime).base, Charge(l, a, rrtime).used)
  {
    hide Rescale, RescaledWord, Inflated, InflatedWord, GcdOf;
    var p := EffectivePeriod(a, rrtime);
    var h := HyperPeriod(l.base, p);
    HyperPeriodPositive(l.base, p);
    RescaleFitsWord(a.runtime, p, h);
    InflatedFitsWord(l, a);
    if l.base > 0 {
      DividesBounded(l.base, h);
      RescaleFitsWord(Inflated(l, a), l.base, h);
      InflatedFits(l, a, h);
      SmallModulo(h);
      SmallModulo(Rescale(Inflated(l, a), l.base, h) + Rescale(a.runtime, p, h));
    } else {
      SmallModulo(Rescale(a.runtime, p, h));
    }
  }

  lemma InflatedFitsWord(l: Ledger, a: Attr)
    requires Inflated(l, a) < 0x1_0000_0000
    ensures InflatedWord(l.used, KnownRuntime(a)) == Inflated(l, a)
    ensures l.used == 0 ==> Inflated(l, a) == 0
  {
    if !KnownRuntime(a) {
      SmallModulo(l.used * SCHED_UKNLOAD);
      SmallModulo(Inflated(l, a));
    }
  }

  /** An inflated account within capacity is at most two hyper-periods. */
  lemma InflatedFits(l: Ledger, a: Attr, h: nat)
    requires l.base > 0 && l.used <= l.base && Divides(l.base, h)
    ensures Rescale(Inflated(l, a), l.base, h) <= 2 * h
  {
    ExactScale(Inflated(l, a), l.base, h);
    var k := Cofactor(l.base, h);
    MultiplesApart(Inflated(l, a), 2 * l.base, k);
    assert (2 * l.base) * k == 2 * (k * l.base);
  }

  lemma SmallModulo(x: nat)
    requires x < WORD
    ensures x % WORD == x
  {
  }

  lemma RescaleFitsWord(u: nat, b: nat, h: nat)
    requires b > 0 && u < 0x1_0000_0000 && Divides(b, h) && 0 < h < 0x1_0000_0000
    ensures RescaledWord(u, h, b) == Rescale(u, b, h) <= 0xffff_ffff * 0xffff_ffff
    ensures u <= b ==> Rescale(u, b, h) <= h
  {
    DividesBounded(b, h);
    ProductBound(u, h, 0xffff_ffff);
    SmallModulo(u * h);
    ExactScale(u, b, h);
    MultiplesApart(u, b, h / b);
    QuotientBelow(u * h, b);
  }

  lemma QuotientBelow(x: nat, d: nat)
    requires d > 0
    ensures x / d <= x
  {
    var q := x / d;
    ProductNonNegative(q, d - 1);
    assert q * d <= x && q * d == q * (d - 1) + q;
  }

  lemma ProductBound(x: nat, h: nat, m: nat)
    requires x <= m && h <= m
    ensures x * h <= m * m
  {
    assert x * h <= x * m <= m * m;
  }
}
