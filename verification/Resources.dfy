/** The CPU tracers of `src/orchestrator/resmgnt.c`: fit test, best-fit search and the
    recomputation of a tracer from the running tasks. */
module Resources {
  import opened CommonUtil
  import opened Ledgers
  import opened Options
  import Periods

  // ---------------------------------------------------------------------------------------
  // State
  // ---------------------------------------------------------------------------------------

  /** A CPU mask; bits outside its size read as clear. */
  type Bitmask = seq<bool>

  predicate IsBitSet(mask: Bitmask, i: int) { 0 <= i < |mask| && mask[i] }

  /** A configured container; only its identity matters here. */
  class Container {}

  /** The configuration entry of a task: resource settings may be missing, a container too. */
  datatype Param = Param(affinity: Option<int>, cont: Container?)

  /** A running task, `node_t`. */
  class Task {
    var pid: int
    var attr: Attr
    var param: Option<Param>
    var assignedCPU: int
    var resched: nat
    var cdfRuntime: nat
    var cdfPeriod: nat
    var rt: nat
    var lastTs: nat
    var deadline: nat
    var dlCount: nat
    var dlScanfail: nat
    var dlOverrun: nat
    var dlDiff: int

    constructor (pid: int, attr: Attr, param: Option<Param>)
      ensures this.pid == pid && this.attr == attr && this.param == param
      ensures assignedCPU == -1 && deadline == rt == cdfRuntime == cdfPeriod == 0
    {
      this.pid, this.attr, this.param := pid, attr, param;
      assignedCPU, resched, cdfRuntime, cdfPeriod := -1, 0, 0, 0;
      rt, lastTs, deadline, dlCount, dlScanfail, dlOverrun, dlDiff := 0, 0, 0, 0, 0, 0, 0;
    }

    /** The attributes the task is accounted with: its own for SCHED_DEADLINE, measured ones otherwise. */
    function Accounted(): Attr
      reads this`attr, this`cdfRuntime, this`cdfPeriod
    {
      if attr.policy == SCHED_DEADLINE then attr
      else Attr(attr.policy, cdfRuntime, Periods.FindPeriodMatch(cdfPeriod))
    }
  }

  /** A CPU tracer, `resTracer_t`. */
  class Tracer {
    const affinity: Bitmask
    var basePeriod: nat
    var usedPeriod: nat
    var U: real
    var harmonic: bool

    constructor (affinity: Bitmask, harmonic: bool)
      ensures this.affinity == affinity && State() == Empty(harmonic)
    {
      this.affinity, this.harmonic := affinity, harmonic;
      basePeriod, usedPeriod, U := 0, 0, 0.0;
    }

    function State(): Ledger
      reads this
    {
      Ledger(basePeriod, usedPeriod, U, harmonic)
    }
  }

  // ---------------------------------------------------------------------------------------
  // Fit test
  // ---------------------------------------------------------------------------------------

  /** Tests whether a task fits a tracer and, on request, adds it. */
  method CheckUvalue(res: Tracer, par: Attr, rrtime: nat, add: bool) returns (rv: int)
    requires EffectivePeriod(par, rrtime) > 0
    modifies if add then {res} else {}
    ensures rv == Score(old(res.State()), par, rrtime)
    ensures res.State() == if add then Charge(old(res.State()), par, rrtime) else old(res.State())
  {
    hide LcmOf, Rescale, BusyTime;
    var base, used := res.basePeriod, res.usedPeriod;
    var baset := if par.period == 0 then SCHED_PDEFAULT else par.period;
    var hm := res.harmonic;
    rv := 0;

    if par.policy != SCHED_DEADLINE {
      if par.policy == SCHED_RR && par.period != 0 && rrtime * SCHED_RRTONATTR <= par.runtime {
        baset := rrtime * SCHED_RRTONATTR;
      }
      if par.runtime == 0 {
        rv := INT_MAX;
        used := used + used * SCHED_UKNLOAD / 100;
      }
    }

    assert baset == EffectivePeriod(par, rrtime) && used == Inflated(res.State(), par);
    HyperPeriodPositive(base, baset);
    if base == 0 {
      base := baset;
      rv := 2;
    } else {
      var hyperP := Lcm(base, baset);
      if hm && base == baset {
        LcmOfEqual(base);
        rv := 0;
      } else if hm && hyperP == baset {
        rv := 1;
      } else if hm && hyperP == base {
        rv := 2;
      } else {
        rv := Interruptions(res.State(), baset);
        hm := false;
      }
      used := Rescale(used, base, hyperP);
      base := hyperP;
    }

    assert base == HyperPeriod(res.basePeriod, baset);
    used := used + Rescale(par.runtime, baset, base);
    var load := used as real / base as real;
    if MAX_UL < load {
      rv := -1;
    }

    if add {
      res.usedPeriod, res.basePeriod, res.U, res.harmonic := used, base, load, hm;
    }
  }

  // ---------------------------------------------------------------------------------------
  // Search
  // ---------------------------------------------------------------------------------------

  const ULTOLMIN: real := 0.95
  const ULTOLMAX: real := 1.05

  ghost predicate AllConsistent(tracers: seq<Tracer>)
    reads tracers
  {
    forall t :: t in tracers ==> Consistent(t.State())
  }

  /** The first tracer whose mask holds the CPU. */
  function TracerFor(tracers: seq<Tracer>, cpu: int): (t: Tracer?)
    ensures t == null <==> forall i :: 0 <= i < |tracers| ==> !IsBitSet(tracers[i].affinity, cpu)
    ensures t != null ==> t in tracers && IsBitSet(t.affinity, cpu)
  {
    if tracers == [] then null
    else if IsBitSet(tracers[0].affinity, cpu) then tracers[0]
    else TracerFor(tracers[1..], cpu)
  }

  /** No other tracer before it holds the CPU. */
  lemma {:induction false} FirstWithCPU(tracers: seq<Tracer>, cpu: int, k: nat)
    requires k < |tracers| && IsBitSet(tracers[k].affinity, cpu)
    requires forall j :: 0 <= j < k ==> !IsBitSet(tracers[j].affinity, cpu)
    ensures TracerFor(tracers, cpu) == tracers[k]
  {
    if k > 0 {
      FirstWithCPU(tracers[1..], cpu, k - 1);
    }
  }

  method GetTracer(tracers: seq<Tracer>, cpu: int) returns (t: Tracer?)
    ensures t == TracerFor(tracers, cpu)
  {
    var i := 0;
    while i < |tracers|
      invariant 0 <= i <= |tracers|
      invariant TracerFor(tracers[i..], cpu) == TracerFor(tracers, cpu)
    {
      if IsBitSet(tracers[i].affinity, cpu) {
        return tracers[i];
      }
      i := i + 1;
    }
    return null;
  }

  /** The lowest CPU of a mask from `i` on, or -1. */
  function FirstCPU(mask: Bitmask, i: nat): (cpu: int)
    requires i <= |mask|
    ensures cpu == -1 <==> forall k :: i <= k < |mask| ==> !mask[k]
    ensures cpu != -1 ==> i <= cpu && IsBitSet(mask, cpu) && forall k :: i <= k < cpu ==> !mask[k]
    decreases |mask| - i
  {
    if i == |mask| then -1 else if mask[i] then i else FirstCPU(mask, i + 1)
  }

  function MainCPU(t: Tracer): int { FirstCPU(t.affinity, 0) }

  method GetTracerMainCPU(res: Tracer?) returns (cpu: int)
    ensures cpu == if res == null then -1 else MainCPU(res)
  {
    if res == null {
      return -1;
    }
    var i := 0;
    while i < |res.affinity|
      invariant 0 <= i <= |res.affinity|
      invariant FirstCPU(res.affinity, i) == MainCPU(res)
    {
      if res.affinity[i] {
        return i;
      }
      i := i + 1;
    }
    return -1;
  }

  ghost function Scores(ledgers: seq<Ledger>, a: Attr, rrtime: nat): seq<int>
    requires EffectivePeriod(a, rrtime) > 0
  {
    seq(|ledgers|, i requires 0 <= i < |ledgers| => Score(ledgers[i], a, rrtime))
  }

  /** A best fit among the first `n`: it takes the task, and none that takes it scores lower. */
  ghost predicate BestFit(scores: seq<int>, n: nat, k: nat) {
    && k < n <= |scores| && scores[k] >= 0
    && forall i :: 0 <= i < n && scores[i] >= 0 ==> scores[k] <= scores[i]
  }

  ghost predicate NoneFits(scores: seq<int>, n: nat)
    requires n <= |scores|
  {
    forall i :: 0 <= i < n ==> scores[i] < 0
  }

  /** What a search over ledgers may return: nothing exactly when nothing fits, else a best fit. */
  ghost predicate SearchResult(tracers: seq<Tracer>, ledgers: seq<Ledger>, t: Tracer?, a: Attr, rrtime: nat)
    requires EffectivePeriod(a, rrtime) > 0 && |tracers| == |ledgers|
  {
    var scores := Scores(ledgers, a, rrtime);
    if t == null then NoneFits(scores, |scores|)
    else exists k :: 0 <= k < |tracers| && tracers[k] == t && BestFit(scores, |scores|, k)
  }

  ghost function LedgersOf(tracers: seq<Tracer>): (ls: seq<Ledger>)
    reads tracers
    ensures |ls| == |tracers| && forall i :: 0 <= i < |ls| ==> ls[i] == tracers[i].State()
  {
    if tracers == [] then []
    else LedgersOf(tracers[..|tracers|-1]) + [tracers[|tracers|-1].State()]
  }

  /** An equal score only wins with a lower load, or a similar one on a preferred CPU. */
  predicate WinsTie(mask: Bitmask, load: real, lastU: real, affinity: int, cpu: int) {
    load < lastU * ULTOLMIN
    || (load <= lastU * ULTOLMAX && ((0 <= cpu && IsBitSet(mask, cpu)) || (0 > affinity && IsBitSet(mask, -affinity))))
  }

  /** Whether tracer `k` displaces the tracer `p` picked before it (-1 if none), given their scores. */
  ghost predicate Displaces(tracers: seq<Tracer>, ls: seq<Ledger>, scores: seq<int>, p: int, k: nat, affinity: int,
                            cpu: int)
    requires |tracers| == |ls| == |scores| && -1 <= p < k < |ls|
  {
    var last, lastU := if p < 0 then INT_MAX else scores[p], if p < 0 then 10.0 else ls[p].load;
    ((0 <= scores[k] < last) || (scores[k] == last && WinsTie(tracers[k].affinity, ls[k].load, lastU, affinity, cpu)))
    // a similar one does not displace a tracer on the CPU of the preference
    && !(scores[k] == last && lastU * ULTOLMIN <= ls[k].load <= lastU * ULTOLMAX && p >= 0
         && 0 > affinity && IsBitSet(tracers[p].affinity, -affinity))
  }

  /** The tracer the search holds after the first `n`, or -1. */
  ghost function Picked(tracers: seq<Tracer>, ls: seq<Ledger>, scores: seq<int>, affinity: int, cpu: int,
                        n: nat): (p: int)
    requires |tracers| == |ls| == |scores| && n <= |ls|
    ensures -1 <= p < n
  {
    if n == 0 then -1
    else
      var p := Picked(tracers, ls, scores, affinity, cpu, n - 1);
      if Displaces(tracers, ls, scores, p, n - 1, affinity, cpu) then n - 1 else p
  }

  /** Scores as a consistent ledger gives them: a fitting tracer is within capacity. */
  ghost predicate Plausible(ls: seq<Ledger>, scores: seq<int>) {
    |ls| == |scores| && forall i :: 0 <= i < |ls| && scores[i] >= 0 ==> scores[i] <= INT_MAX && ls[i].load <= 1.0
  }

  /** Whatever the ties do, the tracer picked takes the task and scores lowest; none only if none does. */
  lemma {:induction false} PickedIsBest(tracers: seq<Tracer>, ls: seq<Ledger>, scores: seq<int>, affinity: int,
                                        cpu: int, n: nat)
    requires |tracers| == |ls| && Plausible(ls, scores) && n <= |ls|
    ensures var p := Picked(tracers, ls, scores, affinity, cpu, n);
      if p < 0 then NoneFits(scores, n) else BestFit(scores, n, p)
  {
    if n > 0 {
      PickedIsBest(tracers, ls, scores, affinity, cpu, n - 1);
    }
  }

  /** Of two tracers with equal scores the second one wins if it is more than 5 percent less loaded; within 5
      percent either way only on the running CPU or the preferred one, and if the first is not on the preferred
      one. */
  lemma SecondOfTwo(tracers: seq<Tracer>, ls: seq<Ledger>, scores: seq<int>, affinity: int, cpu: int)
    requires 2 <= |tracers| == |ls| && Plausible(ls, scores) && 0 <= scores[0] == scores[1] && affinity < 0
    ensures Picked(tracers, ls, scores, affinity, cpu, 2) == 1
      <==> ls[1].load < 0.95 * ls[0].load
           || (ls[1].load <= 1.05 * ls[0].load
               && (IsBitSet(tracers[1].affinity, cpu) || IsBitSet(tracers[1].affinity, -affinity))
               && !IsBitSet(tracers[0].affinity, -affinity))
    ensures Picked(tracers, ls, scores, affinity, cpu, 2) == 1 || Picked(tracers, ls, scores, affinity, cpu, 2) == 0
  {
    assert Picked(tracers, ls, scores, affinity, cpu, 0) == -1;
    assert Picked(tracers, ls, scores, affinity, cpu, 1) == 0;
  }

  /** Among equal scores, no later tracer is more than 5 percent less loaded than the one picked. */
  lemma {:induction false} NoneMuchLighter(tracers: seq<Tracer>, ls: seq<Ledger>, scores: seq<int>, affinity: int,
                                           cpu: int, n: nat, k: nat)
    requires |tracers| == |ls| && Plausible(ls, scores) && k < n <= |ls|
    ensures var p := Picked(tracers, ls, scores, affinity, cpu, n);
      0 <= p < k && scores[k] == scores[p] ==> ls[k].load >= ls[p].load * ULTOLMIN
  {
    if k < n - 1 {
      NoneMuchLighter(tracers, ls, scores, affinity, cpu, n - 1, k);
    }
  }

  /** Between tracers of equal score and load, the first one on the CPU of the negated affinity wins; if
      there is none, the last later one on the running CPU, else the first of all. So -1 stands for CPU 1,
      and CPU 0 can never be preferred. */
  lemma {:induction false} PreferenceIsNegated(tracers: seq<Tracer>, ls: seq<Ledger>, scores: seq<int>, affinity: int,
                                               cpu: int, n: nat)
    requires |tracers| == |ls| == |scores| && 0 < n <= |ls| && affinity < 0
    requires 0 <= scores[0] <= INT_MAX && 0.0 <= ls[0].load <= 1.0
    requires forall i :: 0 <= i < n ==> scores[i] == scores[0] && ls[i].load == ls[0].load
    ensures var p := Picked(tracers, ls, scores, affinity, cpu, n);
      && p >= 0
      && (IsBitSet(tracers[p].affinity, -affinity)
          <==> exists k :: 0 <= k < n && IsBitSet(tracers[k].affinity, -affinity))
      && (IsBitSet(tracers[p].affinity, -affinity) ==>
            -affinity != 0 && forall k :: 0 <= k < p ==> !IsBitSet(tracers[k].affinity, -affinity))
      && (!IsBitSet(tracers[p].affinity, -affinity) ==>
            && (p == 0 || (0 <= cpu && IsBitSet(tracers[p].affinity, cpu)))
            && forall k :: p < k < n ==> !(0 <= cpu && IsBitSet(tracers[k].affinity, cpu)))
  {
    if n > 1 {
      PreferenceIsNegated(tracers, ls, scores, affinity, cpu, n - 1);
    }
  }

  /** What a search over these ledgers returns. */
  ghost function Sought(tracers: seq<Tracer>, ls: seq<Ledger>, a: Attr, affinity: int, cpu: int, rrtime: nat): Tracer?
    requires EffectivePeriod(a, rrtime) > 0 && |tracers| == |ls|
  {
    if affinity >= 0 then TracerFor(tracers, affinity)
    else
      var p := Picked(tracers, ls, Scores(ls, a, rrtime), affinity, cpu, |tracers|);
      if p < 0 then null else tracers[p]
  }

  /** A tracer that takes the task, is harmonic, and whose base is exactly the task's period. */
  ghost predicate Perfect(l: Ledger, a: Attr, rrtime: nat)
    requires EffectivePeriod(a, rrtime) > 0
  {
    l.harmonic && l.base == EffectivePeriod(a, rrtime) && LoadOf(Charge(l, a, rrtime)) <= 1.0
  }

  /** If any tracer is perfect, so is every best fit. */
  lemma PerfectWins(ls: seq<Ledger>, a: Attr, k: nat, m: nat, rrtime: nat)
    requires EffectivePeriod(a, rrtime) > 0 && forall i :: 0 <= i < |ls| ==> Consistent(ls[i])
    requires k < |ls| && Perfect(ls[k], a, rrtime) && BestFit(Scores(ls, a, rrtime), |ls|, m)
    ensures Perfect(ls[m], a, rrtime)
  {
    hide Score, Charge, LoadOf;
    RejectedIff(ls[k], a, rrtime);
    ScoreByPeriods(ls[k], a, rrtime);
    assert Scores(ls, a, rrtime)[k] == 0;
    ScoreByPeriods(ls[m], a, rrtime);
    RejectedIff(ls[m], a, rrtime);
    NonNegativeQuotient(ls[m].used, EffectivePeriod(a, rrtime));
  }

  lemma NonNegativeQuotient(x: nat, d: nat)
    requires d > 0
    ensures x / d >= 0
  {
  }

  /** Finds a tracer for a task; a non-negative affinity is taken as it is. */
  method CheckPeriod(tracers: seq<Tracer>, a: Attr, affinity: int, cpu: int, rrtime: nat) returns (ftrc: Tracer?)
    requires EffectivePeriod(a, rrtime) > 0 && AllConsistent(tracers)
    ensures ftrc != null ==> ftrc in tracers
    ensures affinity >= 0 ==> ftrc == TracerFor(tracers, affinity)
    ensures affinity < 0 ==> SearchResult(tracers, LedgersOf(tracers), ftrc, a, rrtime)
    ensures affinity < 0 && (exists t :: t in tracers && Perfect(t.State(), a, rrtime)) ==>
      ftrc != null && Perfect(ftrc.State(), a, rrtime)
    ensures ftrc == Sought(tracers, LedgersOf(tracers), a, affinity, cpu, rrtime)
  {
    hide Score, Charge, Consistent;
    ftrc := null;
    var last := INT_MAX;
    var lastU := 10.0;
    if 0 <= affinity {
      ftrc := GetTracer(tracers, affinity);
      return;
    }
    ghost var p, ls := -1, LedgersOf(tracers);
    ghost var scores := Scores(ls, a, rrtime);
    for i := 0 to |tracers|
      invariant p == Picked(tracers, ls, scores, affinity, cpu, i)
      invariant ftrc == (if p < 0 then null else tracers[p])
      invariant last == (if p < 0 then INT_MAX else scores[p]) && lastU == (if p < 0 then 10.0 else ls[p].load)
    {
      var trc := tracers[i];
      var res := CheckUvalue(trc, a, rrtime, false);
      if (0 <= res && res < last) || (res == last && WinsTie(trc.affinity, trc.U, lastU, affinity, cpu)) {
        if res == last && trc.U >= lastU * ULTOLMIN && trc.U <= lastU * ULTOLMAX && ftrc != null
           && 0 > affinity && IsBitSet(ftrc.affinity, -affinity) {
          continue;
        }
        last, lastU, ftrc, p := res, trc.U, trc, i;
      }
    }
    ScoresPlausible(ls, a, rrtime);
    PickedIsBest(tracers, ls, scores, affinity, cpu, |tracers|);
    if t :| t in tracers && Perfect(t.State(), a, rrtime) {
      PerfectPicked(tracers, t, a, p, rrtime);
    }
  }

  lemma PerfectPicked(tracers: seq<Tracer>, t: Tracer, a: Attr, p: int, rrtime: nat)
    requires EffectivePeriod(a, rrtime) > 0 && AllConsistent(tracers) && t in tracers && Perfect(t.State(), a, rrtime)
    requires -1 <= p < |tracers|
    requires var scores := Scores(LedgersOf(tracers), a, rrtime);
      if p < 0 then NoneFits(scores, |scores|) else BestFit(scores, |scores|, p)
    ensures p >= 0 && Perfect(tracers[p].State(), a, rrtime)
  {
    hide Score, Charge, Consistent, LoadOf;
    var ls := LedgersOf(tracers);
    var k :| 0 <= k < |tracers| && tracers[k] == t;
    assert ls[k] == t.State() && forall i :: 0 <= i < |ls| ==> Consistent(ls[i]);
    RejectedIff(ls[k], a, rrtime);
    assert Scores(ls, a, rrtime)[k] >= 0;
    PerfectWins(ls, a, k, p, rrtime);
  }

  lemma ScoresPlausible(ls: seq<Ledger>, a: Attr, rrtime: nat)
    requires EffectivePeriod(a, rrtime) > 0 && forall i :: 0 <= i < |ls| ==> Consistent(ls[i])
    ensures Plausible(ls, Scores(ls, a, rrtime))
  {
    forall i | 0 <= i < |ls| && Score(ls[i], a, rrtime) >= 0 ensures Score(ls[i], a, rrtime) <= INT_MAX &&
      ls[i].load <= 1.0 {
      FittingScore(ls[i], a, rrtime);
    }
  }

  /** A ledger that takes a task is itself within capacity, and its score is at most INT_MAX. */
  lemma FittingScore(l: Ledger, a: Attr, rrtime: nat)
    requires EffectivePeriod(a, rrtime) > 0 && Consistent(l) && Score(l, a, rrtime) >= 0
    ensures l.load <= 1.0 && LoadOf(Charge(l, a, rrtime)) <= 1.0 && Score(l, a, rrtime) <= INT_MAX
  {
    ChargeLoad(l, a, rrtime);
    assert Share(a, rrtime) >= 0.0;
  }

  // ---------------------------------------------------------------------------------------
  // Recomputation
  // ---------------------------------------------------------------------------------------

  /** What the accounting sees of a task. */
  datatype View = View(task: Task, pid: int, cpu: int, accounted: Attr)

  function ViewOf(t: Task): View
    reads t`pid, t`assignedCPU, t`attr, t`cdfRuntime, t`cdfPeriod
  {
    View(t, t.pid, t.assignedCPU, t.Accounted())
  }

  /** The task list as the accounting sees it. */
  ghost function Views(tasks: seq<Task>): (vs: seq<View>)
    reads tasks`pid, tasks`assignedCPU, tasks`attr, tasks`cdfRuntime, tasks`cdfPeriod
    ensures |vs| == |tasks| && forall i :: 0 <= i < |vs| ==> vs[i] == ViewOf(tasks[i])
  {
    if tasks == [] then []
    else Views(tasks[..|tasks|-1]) + [ViewOf(tasks[|tasks|-1])]
  }

  /** Whether a task is accounted to a mask. */
  predicate Counts(v: View, mask: Bitmask, skip: Task?) {
    IsBitSet(mask, v.cpu) && 0 <= v.pid && v.task != skip
  }

  /** The attributes accounted to a mask, in list order. */
  ghost function CountedAttrs(vs: seq<View>, mask: Bitmask, skip: Task?): seq<Attr> {
    if vs == [] then []
    else
      CountedAttrs(vs[..|vs|-1], mask, skip)
      + if Counts(vs[|vs|-1], mask, skip) then [vs[|vs|-1].accounted] else []
  }

  /** The accounting built from scratch over a task list; the harmonic flag is not rebuilt. */
  ghost function Rebuilt(harmonic: bool, vs: seq<View>, mask: Bitmask, skip: Task?, rrtime: nat): Ledger
    requires rrtime > 0
  {
    var attrs := CountedAttrs(vs, mask, skip);
    ChargeableAll(attrs, rrtime);
    var scratch := Booked(Empty(false), attrs, rrtime);
    Ledger(scratch.base, scratch.used, scratch.load, harmonic)
  }

  /** What counts is a live task on a CPU of the mask, unless it is the one to skip. */
  lemma CountedNext(vs: seq<View>, v: View, mask: Bitmask, skip: Task?)
    ensures CountedAttrs([], mask, skip) == []
    ensures CountedAttrs(vs + [v], mask, skip)
         == CountedAttrs(vs, mask, skip)
            + if v.pid >= 0 && 0 <= v.cpu < |mask| && mask[v.cpu] && v.task != skip then [v.accounted] else []
  {
    assert (vs + [v])[..|vs|] == vs;
  }

  /** A SCHED_DEADLINE task is accounted as configured, another one as measured: with its estimated runtime, and
      with a period that is one second if none was measured, a power of ten if that was, and above 100 ns within an
      eighth of the measured one. */
  lemma AccountedAs(t: Task)
    ensures t.attr.policy == 6 ==> t.Accounted() == t.attr
    ensures t.attr.policy != 6 ==>
      && t.Accounted().policy == t.attr.policy && t.Accounted().runtime == t.cdfRuntime
      && (t.cdfPeriod == 0 ==> t.Accounted().period == 1_000_000_000)
      && (Periods.PowerOfTen(t.cdfPeriod) ==> t.Accounted().period == t.cdfPeriod)
      && (t.cdfPeriod > 100 ==> 7 * t.cdfPeriod <= 8 * t.Accounted().period <= 9 * t.cdfPeriod)
  {
    if Periods.PowerOfTen(t.cdfPeriod) {
      Periods.PowerIsFixed(t.cdfPeriod);
    }
    if t.cdfPeriod > 100 {
      Periods.NearestStep(t.cdfPeriod, 0);
    }
  }

  lemma ChargeableAll(attrs: seq<Attr>, rrtime: nat)
    requires rrtime > 0
    ensures Chargeable(attrs, rrtime)
  {
  }

  /** One more task: the ledger is charged, its load does not fall, and a negative score tells
      that it is now above capacity. */
  lemma BookOne(attrs: seq<Attr>, a: Attr, rrtime: nat)
    requires Chargeable(attrs, rrtime) && EffectivePeriod(a, rrtime) > 0
    requires Consistent(Booked(Empty(false), attrs, rrtime))
    ensures Chargeable(attrs + [a], rrtime)
    ensures Booked(Empty(false), attrs + [a], rrtime) == Charge(Booked(Empty(false), attrs, rrtime), a, rrtime)
    ensures Consistent(Booked(Empty(false), attrs + [a], rrtime))
    ensures LoadOf(Booked(Empty(false), attrs, rrtime)) <= LoadOf(Booked(Empty(false), attrs + [a], rrtime))
    ensures Score(Booked(Empty(false), attrs, rrtime), a, rrtime) >= -1
    ensures Score(Booked(Empty(false), attrs, rrtime), a, rrtime) < 0
      <==> LoadOf(Booked(Empty(false), attrs + [a], rrtime)) > 1.0
  {
    var before := Booked(Empty(false), attrs, rrtime);
    assert (attrs + [a])[..|attrs|] == attrs;
    ChargeLoad(before, a, rrtime);
    ShareNonNegative(a, rrtime);
    RejectedIff(before, a, rrtime);
  }

  lemma ShareNonNegative(a: Attr, rrtime: nat)
    requires EffectivePeriod(a, rrtime) > 0
    ensures Share(a, rrtime) >= 0.0
  {
  }

  /** One step of a recomputation: adds a task to the ledger under construction. */
  method Account(resNew: Tracer, a: Attr, rrtime: nat, rv: int, ghost sofar: seq<Attr>) returns (rv': int)
    requires EffectivePeriod(a, rrtime) > 0 && Chargeable(sofar, rrtime)
    requires resNew.State() == Booked(Empty(false), sofar, rrtime) && Consistent(resNew.State())
    requires rv == if LoadOf(resNew.State()) > 1.0 then -1 else 0
    modifies resNew
    ensures Chargeable(sofar + [a], rrtime)
    ensures resNew.State() == Booked(Empty(false), sofar + [a], rrtime) && Consistent(resNew.State())
    ensures rv' == if LoadOf(resNew.State()) > 1.0 then -1 else 0
  {
    BookOne(sofar, a, rrtime);
    var score := CheckUvalue(resNew, a, rrtime, true);
    rv' := if score < rv then score else rv;
  }

  /** The same for one task of the list, if it counts. */
  method AccountTask(resNew: Tracer, item: Task, mask: Bitmask, skip: Task?, rrtime: nat, rv: int,
                     ghost sofar: seq<Attr>)
    returns (rv': int, ghost sofar': seq<Attr>)
    requires rrtime > 0 && Chargeable(sofar, rrtime)
    requires resNew.State() == Booked(Empty(false), sofar, rrtime) && Consistent(resNew.State())
    requires rv == if LoadOf(resNew.State()) > 1.0 then -1 else 0
    modifies resNew
    ensures sofar' == sofar + if Counts(ViewOf(item), mask, skip) then [item.Accounted()] else []
    ensures Chargeable(sofar', rrtime)
    ensures resNew.State() == Booked(Empty(false), sofar', rrtime) && Consistent(resNew.State())
    ensures rv' == if LoadOf(resNew.State()) > 1.0 then -1 else 0
  {
    hide LoadOf, Consistent, Booked, Task.Accounted;
    rv', sofar' := rv, sofar;
    if Counts(ViewOf(item), mask, skip) {
      var a := item.Accounted();
      ChargeableAll([a], rrtime);
      assert EffectivePeriod([a][0], rrtime) > 0;
      rv' := Account(resNew, a, rrtime, rv, sofar);
      sofar' := sofar + [a];
    }
  }

  lemma NothingCounted(vs: seq<View>, mask: Bitmask, skip: Task?)
    ensures CountedAttrs(vs[..0], mask, skip) == []
  {
  }

  /** A scratch tracer charged with the tasks on the CPUs of a mask; -1 exactly when their load
      ends above capacity. */
  method Rebuild(mask: Bitmask, tasks: seq<Task>, skip: Task?, rrtime: nat) returns (resNew: Tracer, rv: int)
    requires rrtime > 0
    ensures fresh(resNew) && resNew.State() == Rebuilt(false, Views(tasks), mask, skip, rrtime)
    ensures Consistent(resNew.State()) && rv == if LoadOf(resNew.State()) > 1.0 then -1 else 0
  {
    hide LoadOf, Consistent, Booked, Task.Accounted, Counts, CountedAttrs;
    resNew := new Tracer([], false);
    rv := 0;
    NothingBooked(rrtime);
    ghost var vs, sofar := Views(tasks), [];
    NothingCounted(vs, mask, skip);
    for i := 0 to |tasks|
      invariant fresh(resNew) && Views(tasks) == vs
      invariant sofar == CountedAttrs(vs[..i], mask, skip) && Chargeable(sofar, rrtime)
      invariant resNew.State() == Booked(Empty(false), sofar, rrtime) && Consistent(resNew.State())
      invariant rv == if LoadOf(resNew.State()) > 1.0 then -1 else 0
    {
      CountOne(vs, i, mask, skip);
      rv, sofar := AccountTask(resNew, tasks[i], mask, skip, rrtime, rv, sofar);
    }
    assert vs[..|tasks|] == vs;
    BookedFlag(false, sofar, rrtime);
  }

  /** Rebuilds a tracer's accounting from the tasks on its CPUs. -1 exactly when the final load is
      above capacity. */
  method RecomputeTimesU(res: Tracer, tasks: seq<Task>, skip: Task?, rrtime: nat) returns (rv: int)
    requires rrtime > 0
    modifies res
    ensures res.State() == Rebuilt(old(res.harmonic), Views(tasks), res.affinity, skip, rrtime)
    ensures Consistent(res.State()) && rv == if LoadOf(res.State()) > 1.0 then -1 else 0
    ensures res.harmonic == old(res.harmonic)
  {
    hide LoadOf, Consistent, Rebuilt, Task.Accounted;
    ghost var vs := Views(tasks);
    var resNew;
    resNew, rv := Rebuild(res.affinity, tasks, skip, rrtime);
    assert Views(tasks) == vs;
    res.basePeriod, res.usedPeriod, res.U := resNew.basePeriod, resNew.usedPeriod, resNew.U;
    assert Views(tasks) == vs;
    FlagIrrelevant(resNew.State(), res.State());
    RebuiltFlag(res.harmonic, vs, res.affinity, skip, rrtime);
  }

  lemma RebuiltFlag(harmonic: bool, vs: seq<View>, mask: Bitmask, skip: Task?, rrtime: nat)
    requires rrtime > 0
    ensures Rebuilt(harmonic, vs, mask, skip, rrtime) == Rebuilt(false, vs, mask, skip, rrtime).(harmonic := harmonic)
  {
  }

  /** A ledger that starts without the harmonic flag never gains it. */
  lemma BookedFlag(harmonic: bool, attrs: seq<Attr>, rrtime: nat)
    requires Chargeable(attrs, rrtime)
    ensures Booked(Empty(harmonic), attrs, rrtime).harmonic ==> harmonic
  {
    if attrs != [] {
      BookedFlag(harmonic, attrs[..|attrs|-1], rrtime);
    }
  }

  lemma FlagIrrelevant(l: Ledger, l': Ledger)
    requires l'.base == l.base && l'.used == l.used && l'.load == l.load
    ensures LoadOf(l') == LoadOf(l) && (Consistent(l') <==> Consistent(l))
  {
  }

  lemma NothingBooked(rrtime: nat)
    ensures Consistent(Empty(false)) && LoadOf(Empty(false)) == 0.0
    ensures Booked(Empty(false), [], rrtime) == Empty(false)
  {
  }

  lemma CountOne(vs: seq<View>, i: nat, mask: Bitmask, skip: Task?)
    requires i < |vs|
    ensures CountedAttrs(vs[..i+1], mask, skip)
         == CountedAttrs(vs[..i], mask, skip) + if Counts(vs[i], mask, skip) then [vs[i].accounted] else []
  {
    assert vs[..i+1][..i] == vs[..i];
  }

  /** The ledgers of `tracers`, with `hidden` in place of the ledger of `own`. */
  ghost function Substituted(tracers: seq<Tracer>, own: Tracer?, hidden: Ledger): (ls: seq<Ledger>)
    reads tracers
    ensures |ls| == |tracers|
    ensures forall i :: 0 <= i < |ls| ==> ls[i] == if tracers[i] == own then hidden else tracers[i].State()
  {
    if tracers == [] then []
    else
      var t := tracers[|tracers|-1];
      Substituted(tracers[..|tracers|-1], own, hidden) + [if t == own then hidden else t.State()]
  }

  /** What `CheckPeriodR` searches: the item's own tracer does not count it unless included. */
  ghost function SearchedLedgers(tracers: seq<Tracer>, own: Tracer?, tasks: seq<Task>, item: Task,
                                 rrtime: nat): (ls: seq<Ledger>)
    requires rrtime > 0
    reads tracers, tasks, own
    ensures |ls| == |tracers|
  {
    if own == null then LedgersOf(tracers)
    else Substituted(tracers, own, Rebuilt(own.harmonic, Views(tasks), own.affinity, item, rrtime))
  }

  /** The tracer that leaves an item out of its account during a search. */
  function Hiding(tracers: seq<Tracer>, item: Task, withItem: bool): Tracer?
    reads item
  {
    if withItem then null else TracerFor(tracers, item.assignedCPU)
  }

  const INT_MIN: int := -0x8000_0000

  function AffinityOf(item: Task): int
    reads item`param
  {
    if item.param.Some? && item.param.value.affinity.Some? then item.param.value.affinity.value else INT_MIN
  }

  /** Recomputes the tracer of a CPU; -2 when there is none. */
  method RecomputeCPUTimesU(tracers: seq<Tracer>, cpu: int, tasks: seq<Task>, skip: Task?, rrtime: nat)
    returns (rv: int)
    requires rrtime > 0 && AllConsistent(tracers)
    modifies tracers
    ensures forall t :: t in tracers ==>
      t.State() == if t == TracerFor(tracers, cpu) then Rebuilt(old(t.harmonic), Views(tasks), t.affinity, skip, rrtime)
                   else old(t.State())
    ensures AllConsistent(tracers) && forall t :: t in tracers ==> t.harmonic == old(t.harmonic)
    ensures rv == if cpu < 0 then 0 else if TracerFor(tracers, cpu) == null then -2
                  else if LoadOf(TracerFor(tracers, cpu).State()) > 1.0 then -1 else 0
  {
    if 0 > cpu {
      return 0;
    }
    var trc := GetTracer(tracers, cpu);
    if trc == null {
      return -2;
    }
    rv := RecomputeTimesU(trc, tasks, skip, rrtime);
  }

  /** Leaves an item out of the account of its tracer unless it is included. */
  method HideItem(tracers: seq<Tracer>, tasks: seq<Task>, item: Task, withItem: bool, rrtime: nat)
    requires rrtime > 0 && AllConsistent(tracers)
    modifies tracers
    ensures AllConsistent(tracers) && forall t :: t in tracers ==> t.harmonic == old(t.harmonic)
    ensures forall t :: t in tracers && t != Hiding(tracers, item, withItem) ==> t.State() == old(t.State())
    ensures LedgersOf(tracers) == old(SearchedLedgers(tracers, Hiding(tracers, item, withItem), tasks, item, rrtime))
  {
    hide Rebuilt, Task.Accounted, LoadOf, TracerFor, Consistent;
    ghost var searched := SearchedLedgers(tracers, Hiding(tracers, item, withItem), tasks, item, rrtime);
    if !withItem {
      var _ := RecomputeCPUTimesU(tracers, item.assignedCPU, tasks, item, rrtime);
    }
    assert LedgersOf(tracers) == searched;
  }

  /** First half of `CheckPeriodR`: takes the task out of its tracer's account if asked to, and searches. */
  method SearchHiding(tracers: seq<Tracer>, tasks: seq<Task>, item: Task, withItem: bool, rrtime: nat)
    returns (ftrc: Tracer?)
    requires rrtime > 0 && AllConsistent(tracers)
    modifies tracers
    ensures AllConsistent(tracers) && forall t :: t in tracers ==> t.harmonic == old(t.harmonic)
    ensures forall t :: t in tracers && t != Hiding(tracers, item, withItem) ==> t.State() == old(t.State())
    ensures EffectivePeriod(item.Accounted(), rrtime) > 0
    ensures ftrc != null ==> ftrc in tracers
    ensures AffinityOf(item) >= 0 ==> ftrc == TracerFor(tracers, AffinityOf(item))
    ensures AffinityOf(item) < 0 ==>
      SearchResult(tracers, old(SearchedLedgers(tracers, Hiding(tracers, item, withItem), tasks, item, rrtime)),
                   ftrc, item.Accounted(), rrtime)
    ensures ftrc == Sought(tracers, old(SearchedLedgers(tracers, Hiding(tracers, item, withItem), tasks, item, rrtime)),
                           item.Accounted(), AffinityOf(item), item.assignedCPU, rrtime)
  {
    hide SearchResult, Task.Accounted, EffectivePeriod, TracerFor, AllConsistent, Sought, Perfect, SearchedLedgers;
    EffectivePeriodPositive(item.Accounted(), rrtime);
    HideItem(tracers, tasks, item, withItem, rrtime);
    ftrc := CheckPeriod(tracers, item.Accounted(), AffinityOf(item), item.assignedCPU, rrtime);
  }

  /** Finds a tracer for a running task, optionally leaving the task itself out of its tracer's
      account while searching. Afterwards that tracer counts every task again. */
  method CheckPeriodR(tracers: seq<Tracer>, tasks: seq<Task>, item: Task, withItem: bool, rrtime: nat)
    returns (ftrc: Tracer?)
    requires rrtime > 0 && AllConsistent(tracers)
    modifies tracers
    ensures AllConsistent(tracers)
    ensures forall t :: t in tracers ==>
      t.State() == if t == Hiding(tracers, item, withItem)
                   then Rebuilt(old(t.harmonic), Views(tasks), t.affinity, null, rrtime) else old(t.State())
    ensures old(forall t :: t in tracers ==> Agrees(t, Views(tasks), rrtime)) ==>
      forall t :: t in tracers ==> t.State() == old(t.State())
    ensures ftrc != null ==> ftrc in tracers
    ensures item.assignedCPU < 0 ==> ftrc == null
    ensures item.assignedCPU >= 0 && AffinityOf(item) >= 0 ==> ftrc == TracerFor(tracers, AffinityOf(item))
    ensures item.assignedCPU >= 0 && AffinityOf(item) < 0 ==>
      EffectivePeriod(item.Accounted(), rrtime) > 0 &&
      SearchResult(tracers, old(SearchedLedgers(tracers, Hiding(tracers, item, withItem), tasks, item, rrtime)),
                   ftrc, item.Accounted(), rrtime)
    ensures EffectivePeriod(item.Accounted(), rrtime) > 0
    ensures ftrc == if item.assignedCPU < 0 then null
                    else
                      Sought(tracers,
                             old(SearchedLedgers(tracers, Hiding(tracers, item, withItem), tasks, item, rrtime)),
                             item.Accounted(), AffinityOf(item), item.assignedCPU, rrtime)
  {
    hide Rebuilt, SearchResult, SearchedLedgers, Consistent, Task.Accounted, EffectivePeriod, LoadOf, TracerFor, Sought;
    EffectivePeriodPositive(item.Accounted(), rrtime);
    if 0 > item.assignedCPU {
      return null;
    }
    ftrc := SearchHiding(tracers, tasks, item, withItem, rrtime);
    if !withItem {
      ghost var vs := Views(tasks);
      var _ := RecomputeCPUTimesU(tracers, item.assignedCPU, tasks, null, rrtime);
      assert Views(tasks) == vs;
    }
  }

  // ---------------------------------------------------------------------------------------
  // What a recomputation and a search without the item mean
  // ---------------------------------------------------------------------------------------

  /** A tracer's accounting is what a recomputation over the task list would give. */
  ghost predicate Agrees(t: Tracer, vs: seq<View>, rrtime: nat)
    requires rrtime > 0
    reads t
  {
    t.State() == Rebuilt(t.harmonic, vs, t.affinity, null, rrtime)
  }

  ghost predicate DistinctTasks(vs: seq<View>) {
    forall i, j :: 0 <= i < j < |vs| ==> vs[i].task != vs[j].task
  }

  lemma {:induction false} SkipAbsent(vs: seq<View>, mask: Bitmask, skip: Task)
    requires forall i :: 0 <= i < |vs| ==> vs[i].task != skip
    ensures CountedAttrs(vs, mask, skip) == CountedAttrs(vs, mask, null)
  {
    if vs != [] {
      SkipAbsent(vs[..|vs|-1], mask, skip);
    }
  }

  /** Skipping one counted task removes its attributes from the account, and nothing else. */
  lemma {:induction false} SkipRemovesOne(vs: seq<View>, k: nat, mask: Bitmask)
    requires DistinctTasks(vs) && k < |vs| && Counts(vs[k], mask, null)
    ensures multiset(CountedAttrs(vs, mask, null))
         == multiset(CountedAttrs(vs, mask, vs[k].task)) + multiset{vs[k].accounted}
  {
    var front := vs[..|vs|-1];
    if k == |vs|-1 {
      SkipAbsent(front, mask, vs[k].task);
    } else {
      SkipRemovesOne(front, k, mask);
    }
  }

  /** The load the search hides is exactly the item's own share, although base and used time are
      both rescaled by another hyper-period. */
  lemma HiddenLoadIsOwnShare(harmonic: bool, vs: seq<View>, k: nat, mask: Bitmask, rrtime: nat)
    requires rrtime > 0 && DistinctTasks(vs) && k < |vs| && Counts(vs[k], mask, null)
    requires AllKnown(CountedAttrs(vs, mask, null))
    ensures EffectivePeriod(vs[k].accounted, rrtime) > 0
    ensures LoadOf(Rebuilt(harmonic, vs, mask, null, rrtime))
         == LoadOf(Rebuilt(harmonic, vs, mask, vs[k].task, rrtime)) + Share(vs[k].accounted, rrtime)
  {
    var all, rest := CountedAttrs(vs, mask, null), CountedAttrs(vs, mask, vs[k].task);
    var a := vs[k].accounted;
    ChargeableAll(all, rrtime);
    ChargeableAll(rest, rrtime);
    ChargeableAll([a], rrtime);
    SkipRemovesOne(vs, k, mask);
    assert multiset(rest + [a]) == multiset(all);
    KnownPermutes(all, rest + [a]);
    BookingOrderIrrelevant(Empty(false), all, rest + [a], rrtime);
    ExtendedLoad(rest, a, rrtime);
    SameLoad(Booked(Empty(false), all, rrtime), Booked(Empty(false), rest + [a], rrtime));
  }

  lemma SameLoad(l: Ledger, l': Ledger)
    requires l.base == l'.base && l.used == l'.used
    ensures LoadOf(l) == LoadOf(l')
  {
  }

  lemma KnownPermutes(s: seq<Attr>, t: seq<Attr>)
    requires multiset(s) == multiset(t) && AllKnown(s)
    ensures AllKnown(t)
  {
    SameElements(s, t);
  }

  lemma ExtendedLoad(s: seq<Attr>, a: Attr, rrtime: nat)
    requires Chargeable(s + [a], rrtime) && AllKnown(s + [a])
    ensures Chargeable(s, rrtime) && EffectivePeriod(a, rrtime) > 0
    ensures LoadOf(Booked(Empty(false), s + [a], rrtime)) == LoadOf(Booked(Empty(false), s, rrtime)) + Share(a, rrtime)
  {
    assert (s + [a])[..|s|] == s && (s + [a])[|s|] == a;
    assert forall i :: 0 <= i < |s| ==> (s + [a])[i] == s[i];
    NothingBooked(rrtime);
    BookedLoad(Empty(false), s, rrtime);
    ChargeLoad(Booked(Empty(false), s, rrtime), a, rrtime);
  }

  /** During that search the item's own tracer takes it back exactly when it was not overloaded. */
  lemma OwnTracerTakesItBack(harmonic: bool, vs: seq<View>, k: nat, mask: Bitmask, rrtime: nat)
    requires rrtime > 0 && DistinctTasks(vs) && k < |vs| && Counts(vs[k], mask, null)
    requires AllKnown(CountedAttrs(vs, mask, null))
    ensures EffectivePeriod(vs[k].accounted, rrtime) > 0
    ensures Score(Rebuilt(harmonic, vs, mask, vs[k].task, rrtime), vs[k].accounted, rrtime) >= 0
      <==> LoadOf(Rebuilt(harmonic, vs, mask, null, rrtime)) <= 1.0
  {
    HiddenLoadIsOwnShare(harmonic, vs, k, mask, rrtime);
    var rest := CountedAttrs(vs, mask, vs[k].task);
    ChargeableAll(rest, rrtime);
    NothingBooked(rrtime);
    BookedLoad(Empty(false), rest, rrtime);
    FlagIrrelevant(Booked(Empty(false), rest, rrtime), Rebuilt(harmonic, vs, mask, vs[k].task, rrtime));
    assert vs[k].accounted in CountedAttrs(vs, mask, null) by {
      SkipRemovesOne(vs, k, mask);
      assert vs[k].accounted in multiset(CountedAttrs(vs, mask, null));
    }
    RejectedIff(Rebuilt(harmonic, vs, mask, vs[k].task, rrtime), vs[k].accounted, rrtime);
  }

  /** A recomputation keeps the old harmonic flag. The flag is then right exactly when one counted
      period is a multiple of all others. */
  lemma RebuiltFlagIsRightIff(vs: seq<View>, mask: Bitmask, rrtime: nat)
    requires rrtime > 0 && CountedAttrs(vs, mask, null) != []
    ensures Rebuilt(true, vs, mask, null, rrtime).harmonic
    ensures var attrs := CountedAttrs(vs, mask, null);
      HarmonicBase(Rebuilt(true, vs, mask, null, rrtime).base, attrs, rrtime)
      <==> exists i :: 0 <= i < |attrs| && CommonMultiple(attrs, EffectivePeriod(attrs[i], rrtime), rrtime)
  {
    var attrs := CountedAttrs(vs, mask, null);
    ChargeableAll(attrs, rrtime);
    BookedBase(Empty(false), attrs, rrtime);
    HarmonicBaseIff(attrs, rrtime);
  }

  /** Two tasks with periods 2 and 3 leave a flagged tracer flagged, with base 6. */
  lemma RebuiltFlagCanBeStale(t: Task, u: Task)
    ensures var vs := [View(t, 1, 0, Attr(SCHED_DEADLINE, 1, 2)), View(u, 2, 0, Attr(SCHED_DEADLINE, 1, 3))];
      var l := Rebuilt(true, vs, [true], null, 100);
      l.harmonic && l.base == 6 && !HarmonicBase(l.base, CountedAttrs(vs, [true], null), 100)
  {
    var a, b := Attr(SCHED_DEADLINE, 1, 2), Attr(SCHED_DEADLINE, 1, 3);
    var vs := [View(t, 1, 0, a), View(u, 2, 0, b)];
    CountOne(vs, 1, [true], null);
    CountOne(vs, 0, [true], null);
    assert vs[..0] == [] && vs[..2] == vs;
    var attrs := CountedAttrs(vs, [true], null);
    assert attrs == [a, b];
    ChargeableAll(attrs, 100);
    BookedBase(Empty(false), attrs, 100);
    PeriodsTwoAndThree(a, b);
  }

  lemma PeriodsTwoAndThree(a: Attr, b: Attr)
    requires a == Attr(SCHED_DEADLINE, 1, 2) && b == Attr(SCHED_DEADLINE, 1, 3)
    ensures CommonPeriod([a, b], 100) == 6 && !HarmonicBase(6, [a, b], 100)
  {
    assert [a, b][..1] == [a] && [a][..0] == [];
    assert CommonPeriod([a], 100) == 2 by {
      LcmOne(2);
    }
    assert GcdOf(2, 3) == GcdOf(3, 2) == GcdOf(2, 1) == GcdOf(1, 0) == 1;
    assert LcmOf(2, 3) == 6;
  }

  // ---------------------------------------------------------------------------------------
  // Fewer tasks, less load
  // ---------------------------------------------------------------------------------------

  /** The second list shows the same tasks, and only such count as counted before. */
  ghost predicate FewerCount(vs: seq<View>, vs': seq<View>, mask: Bitmask) {
    |vs| == |vs'|
    && forall i :: 0 <= i < |vs| ==>
         vs'[i].accounted == vs[i].accounted && (Counts(vs'[i], mask, null) ==> Counts(vs[i], mask, null))
  }

  /** Task `k` no longer counts, and it has a runtime. */
  ghost predicate Dropped(vs: seq<View>, vs': seq<View>, mask: Bitmask, k: nat) {
    k < |vs| && |vs| == |vs'| && Counts(vs[k], mask, null) && !Counts(vs'[k], mask, null)
    && vs[k].accounted.runtime > 0
  }

  lemma {:induction false} FewerCarry(vs: seq<View>, vs': seq<View>, mask: Bitmask, gap: nat, k: nat, rrtime: nat)
    requires rrtime > 0 && FewerCount(vs, vs', mask) && (gap > 0 ==> gap == 1 && Dropped(vs, vs', mask, k))
    ensures Chargeable(CountedAttrs(vs, mask, null), rrtime) && Chargeable(CountedAttrs(vs', mask, null), rrtime)
    ensures Carries(Booked(Empty(false), CountedAttrs(vs, mask, null), rrtime),
                    Booked(Empty(false), CountedAttrs(vs', mask, null), rrtime), gap)
  {
    hide Charge, Carries, EffectivePeriod, Booked;
    ChargeableAll(CountedAttrs(vs, mask, null), rrtime);
    ChargeableAll(CountedAttrs(vs', mask, null), rrtime);
    if vs == [] {
      EmptyCarries(rrtime);
    } else {
      var n := |vs| - 1;
      var a, before := vs[n].accounted, if k < n then gap else 0;
      FewerCarry(vs[..n], vs'[..n], mask, before, k, rrtime);
      var s, s' := CountedAttrs(vs[..n], mask, null), CountedAttrs(vs'[..n], mask, null);
      var l, l' := Booked(Empty(false), s, rrtime), Booked(Empty(false), s', rrtime);
      assert s + [] == s && s' + [] == s';
      if Counts(vs[n], mask, null) {
        BookedNext(s, a, rrtime);
        BookedNext(s', a, rrtime);
        if Counts(vs'[n], mask, null) {
          ChargeCarries(l, l', before, a, rrtime);
        } else {
          ExtraCarries(l, l', before, a, rrtime);
          LesserGap(Charge(l, a, rrtime), l', if a.runtime > 0 then before + 1 else before, gap);
        }
      }
    }
  }

  lemma EmptyCarries(rrtime: nat)
    ensures Carries(Booked(Empty(false), [], rrtime), Booked(Empty(false), [], rrtime), 0)
  {
  }

  lemma BookedNext(s: seq<Attr>, a: Attr, rrtime: nat)
    requires rrtime > 0 && Chargeable(s, rrtime)
    ensures EffectivePeriod(a, rrtime) > 0 && Chargeable(s + [a], rrtime)
    ensures Booked(Empty(false), s + [a], rrtime) == Charge(Booked(Empty(false), s, rrtime), a, rrtime)
  {
    hide Charge;
    assert (s + [a])[..|s|] == s;
  }

  lemma LesserGap(more: Ledger, l: Ledger, gap: nat, less: nat)
    requires Carries(more, l, gap) && less <= gap
    ensures Carries(more, l, less)
  {
  }

  /** Counting fewer tasks never gives more load, unknown runtimes included, and gives less once a
      runtime drops out. */
  lemma FewerLessLoad(harmonic: bool, vs: seq<View>, vs': seq<View>, mask: Bitmask, rrtime: nat)
    requires rrtime > 0 && FewerCount(vs, vs', mask)
    ensures LoadOf(Rebuilt(harmonic, vs', mask, null, rrtime)) <= LoadOf(Rebuilt(harmonic, vs, mask, null, rrtime))
    ensures (exists k :: Dropped(vs, vs', mask, k)) ==>
      LoadOf(Rebuilt(harmonic, vs', mask, null, rrtime)) < LoadOf(Rebuilt(harmonic, vs, mask, null, rrtime))
  {
    hide Booked, Carries, LoadOf;
    FewerCarry(vs, vs', mask, 0, 0, rrtime);
    var l := Booked(Empty(false), CountedAttrs(vs, mask, null), rrtime);
    var l' := Booked(Empty(false), CountedAttrs(vs', mask, null), rrtime);
    CarriedLoad(l, l', 0);
    FlagIrrelevant(l, l.(harmonic := harmonic));
    FlagIrrelevant(l', l'.(harmonic := harmonic));
    if k: nat :| Dropped(vs, vs', mask, k) {
      FewerCarry(vs, vs', mask, 1, k, rrtime);
      CarriedLoad(l, l', 1);
    }
  }
}
