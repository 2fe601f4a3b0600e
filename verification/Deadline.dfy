/** Deadline tracking of `src/orchestrator/manage.c`: the demand test before a deadline and the
    catch-up of a task's deadline at the end of a period. */
module Deadline {
  import opened CommonUtil
  import opened Ledgers
  import opened Options
  import opened Resources
  import opened Realloc

  function CeilDiv(x: nat, p: nat): nat
    requires p > 0
  {
    (x + p - 1) / p
  }

  /** The periods counted from `d` on that start before `limit`: exactly `CeilDiv` many. */
  lemma PeriodsBefore(d: nat, limit: nat, p: nat, k: nat)
    requires p > 0 && d <= limit
    ensures d + k * p < limit <==> k < CeilDiv(limit - d, p)
  {
    var x := limit - d;
    var n := CeilDiv(x, p);
    assert n * p <= x + p - 1 < n * p + p;
    MultiplesApart(k, n, p);
    MultiplesApart(n, k, p);
  }

  lemma CeilDivIs(x: nat, p: nat, n: nat)
    requires p > 0 && (n == 0 ==> x == 0) && (n > 0 ==> (n - 1) * p < x) && x <= n * p
    ensures CeilDiv(x, p) == n
  {
    Distribute(n, -1, p);
    DivModUnique(x + p - 1, p, n, x + p - 1 - n * p);
  }

  // ---------------------------------------------------------------------------------------
  // Demand before a deadline
  // ---------------------------------------------------------------------------------------

  /** The time one task may still need on CPU `cpu` before `limit`, being itself on CPU `on`: its periods from its
      own deadline on, each with its estimated (else configured) runtime. */
  function PendingDemand(c: Task, on: int, limit: nat, cpu: int): nat
    reads c`pid, c`deadline, c`attr, c`cdfPeriod, c`cdfRuntime
  {
    if on == cpu && 0 <= c.pid && c.deadline != 0 && (c.attr.period != 0 || c.cdfPeriod != 0) && c.deadline <= limit
    then CeilDiv(limit - c.deadline, c.attr.period + c.cdfPeriod) * Budget(c)
    else 0
  }

  function Budget(c: Task): nat
    reads c`attr, c`cdfRuntime
  {
    if c.cdfRuntime != 0 then c.cdfRuntime else c.attr.runtime
  }

  /** The demand of all tasks, if they are on these CPUs. */
  ghost function TotalDemand(tasks: seq<Task>, cpus: seq<int>, limit: nat, cpu: int): nat
    requires |tasks| == |cpus|
    reads tasks`pid, tasks`deadline, tasks`attr, tasks`cdfPeriod, tasks`cdfRuntime
  {
    if tasks == [] then 0
    else
      var n := |tasks| - 1;
      TotalDemand(tasks[..n], cpus[..n], limit, cpu) + PendingDemand(tasks[n], cpus[n], limit, cpu)
  }

  /** One task's demand: a period for each start from its deadline to the limit, with the estimated runtime if
      there is one and the configured one else; nothing for a task elsewhere, deactivated, without a deadline or a
      period, or with a deadline behind the limit. */
  lemma DemandOfOne(c: Task, on: int, limit: nat, cpu: int, n: nat)
    ensures on == cpu && c.pid >= 0 && 0 < c.deadline <= limit && c.attr.period + c.cdfPeriod > 0
      && (n == 0 ==> limit == c.deadline) && limit <= c.deadline + n * (c.attr.period + c.cdfPeriod)
      && (n > 0 ==> c.deadline + (n - 1) * (c.attr.period + c.cdfPeriod) < limit)
      ==> TotalDemand([c], [on], limit, cpu) == n * c.cdfRuntime + if c.cdfRuntime == 0 then n * c.attr.runtime else 0
    ensures on != cpu || c.pid < 0 || c.deadline == 0 || c.attr.period + c.cdfPeriod == 0 || limit < c.deadline
      ==> TotalDemand([c], [on], limit, cpu) == 0
  {
    assert [c][..0] == [] && [on][..0] == [];
    assert TotalDemand([c], [on], limit, cpu) == PendingDemand(c, on, limit, cpu);
    if 0 < c.deadline <= limit && c.attr.period + c.cdfPeriod > 0
       && (n == 0 ==> limit == c.deadline) && limit <= c.deadline + n * (c.attr.period + c.cdfPeriod)
       && (n > 0 ==> c.deadline + (n - 1) * (c.attr.period + c.cdfPeriod) < limit) {
      CeilDivIs(limit - c.deadline, c.attr.period + c.cdfPeriod, n);
    }
  }

  lemma DemandOfNone(tasks: seq<Task>, cpus: seq<int>, limit: nat, cpu: int)
    ensures TotalDemand(tasks[..0], cpus[..0], limit, cpu) == 0
  {
  }

  lemma DemandOfNext(tasks: seq<Task>, cpus: seq<int>, i: nat, limit: nat, cpu: int)
    requires i < |tasks| == |cpus|
    ensures TotalDemand(tasks[..i+1], cpus[..i+1], limit, cpu)
         == TotalDemand(tasks[..i], cpus[..i], limit, cpu) + PendingDemand(tasks[i], cpus[i], limit, cpu)
  {
    hide PendingDemand;
    assert tasks[..i+1][..i] == tasks[..i] && cpus[..i+1][..i] == cpus[..i];
  }

  /** 1 exactly when the demand before the deadline leaves too little time. */
  method PickPidCheckBuffer(item: Task, ts: nat, extraRt: nat, tasks: seq<Task>) returns (rv: int)
    ensures rv == if item.deadline < ts + TotalDemand(tasks, Cpus(tasks), item.deadline, item.assignedCPU) + extraRt
                  then 1 else 0
  {
    hide TotalDemand, CeilDiv;
    ghost var cpus := Cpus(tasks);
    DemandOfNone(tasks, cpus, item.deadline, item.assignedCPU);
    var usedtime := 0;
    for i := 0 to |tasks|
      invariant usedtime == TotalDemand(tasks[..i], cpus[..i], item.deadline, item.assignedCPU)
    {
      var citem := tasks[i];
      DemandOfNext(tasks, cpus, i, item.deadline, item.assignedCPU);
      if citem.assignedCPU != item.assignedCPU || 0 > citem.pid {
        continue;
      }
      if citem.deadline != 0 && (citem.attr.period != 0 || citem.cdfPeriod != 0) && citem.deadline <= item.deadline {
        var added := DemandOf(citem.deadline, item.deadline, citem.attr.period + citem.cdfPeriod, Budget(citem));
        usedtime := usedtime + added;
      }
    }
    assert tasks[..|tasks|] == tasks && cpus[..|tasks|] == cpus;
    return if item.deadline < ts + usedtime + extraRt then 1 else 0;
  }

  /** The inner loop: adds one budget per period that still starts before the limit. */
  method DemandOf(deadline: nat, limit: nat, period: nat, budget: nat) returns (usedtime: nat)
    requires period > 0 && deadline <= limit
    ensures usedtime == CeilDiv(limit - deadline, period) * budget
  {
    var stdl := deadline;
    ghost var n: nat := 0;
    usedtime := 0;
    while stdl < limit
      invariant stdl == deadline + n * period && usedtime == n * budget
      invariant n > 0 ==> (n - 1) * period < limit - deadline
      decreases limit - stdl
    {
      stdl := stdl + period;
      usedtime := usedtime + budget;
      Distribute(n, 1, period);
      Distribute(n, 1, budget);
      n := n + 1;
    }
    CeilDivIs(limit - deadline, period, n);
  }

  // ---------------------------------------------------------------------------------------
  // Catching up at the end of a period
  // ---------------------------------------------------------------------------------------

  /** The first deadline not before `ts`, in steps of `p` from `d`. */
  function CatchUp(d: nat, ts: nat, p: nat): nat
    requires p > 0
  {
    if d >= ts then d else d + CeilDiv(ts - d, p) * p
  }

  lemma CatchUpBounds(d: nat, ts: nat, p: nat)
    requires p > 0
    ensures CatchUp(d, ts, p) >= ts && CatchUp(d, ts, p) >= d
    ensures d < ts ==> CatchUp(d, ts, p) < ts + p
    ensures d >= ts ==> CatchUp(d, ts, p) == d
  {
    if d < ts {
      var n := CeilDiv(ts - d, p);
      assert n * p <= ts - d + p - 1 < n * p + p;
      ProductNonNegative(n, p);
    }
  }

  /** Adds periods to a deadline until it is not before `ts`, counting them. */
  method Advance(d: nat, ts: nat, p: nat) returns (d': nat, n: nat)
    requires p > 0
    ensures d' == CatchUp(d, ts, p) == d + n * p
    ensures n == if d >= ts then 0 else CeilDiv(ts - d, p)
  {
    d', n := d, 0;
    while d' < ts
      invariant d' == d + n * p && (n > 0 ==> d + (n - 1) * p < ts)
      decreases ts - d'
    {
      d' := d' + p;
      Distribute(n, 1, p);
      n := n + 1;
    }
    if d < ts {
      CeilDivIs(ts - d, p, n);
    }
  }

  /** The whole periods a runtime overran. */
  function OverrunChunks(d: nat, ts: nat, rt: nat, p: nat): nat
    requires p > 0
  {
    if d < ts && rt > p then (rt - 1) / p else 0
  }

  /** How many: as many periods as fit strictly into the runtime, and none for a deadline still ahead. */
  lemma ChunksAre(d: nat, ts: nat, rt: nat, p: nat, n: nat)
    requires p > 0 && n * p < rt <= (n + 1) * p && d < ts
    ensures OverrunChunks(d, ts, rt, p) == n
  {
    Distribute(n, 1, p);
    DivModUnique(rt - 1, p, n, rt - 1 - n * p);
    if rt <= p && n > 0 {
      MultiplesApart(1, n, p);
    }
  }

  lemma NoChunks(d: nat, ts: nat, rt: nat, p: nat)
    requires p > 0 && (d >= ts || rt == 0)
    ensures OverrunChunks(d, ts, rt, p) == 0
  {
  }

  /** What the chunks leave of the way to the present is made up of scan failures. */
  lemma ScanfailsAre(d: nat, ts: nat, rt: nat, p: nat, n: nat)
    requires p > 0
    requires var passed := d + OverrunChunks(d, ts, rt, p) * p;
      if n == 0 then passed >= ts else passed + (n - 1) * p < ts <= passed + n * p
    ensures Scanfails(d, ts, rt, p) == n
  {
    var passed := d + OverrunChunks(d, ts, rt, p) * p;
    if n > 0 {
      ProductNonNegative(n - 1, p);
      CeilDivIs(ts - passed, p, n);
    }
  }

  /** The periods missed between a deadline and the current time. */
  function Missed(d: nat, ts: nat, rt: nat, p: nat): nat
    requires p > 0
  {
    OverrunChunks(d, ts, rt, p) + Scanfails(d, ts, rt, p)
  }

  /** Those of them that no overrun explains. */
  function Scanfails(d: nat, ts: nat, rt: nat, p: nat): nat
    requires p > 0
  {
    var d' := d + OverrunChunks(d, ts, rt, p) * p;
    if d' >= ts then 0 else CeilDiv(ts - d', p)
  }

  /** The deadline at the start of the check: read from the debug file when none is known yet. */
  function KnownDeadline(d: nat, ts: nat, p: nat, first: Option<nat>): nat
    requires p > 0
  {
    if d != 0 then d else CatchUp(first.GetOr(0), ts, p)
  }

  /** The deadline the check leaves, given what the debug file returned. */
  function NextDeadline(d: nat, ts: nat, rt: nat, p: nat, first: Option<nat>, second: Option<nat>): nat
    requires p > 0
  {
    var known := KnownDeadline(d, ts, p, first);
    var missed := Missed(known, ts, rt, p);
    var passed := known + missed * p;
    var current := if missed == 0 then passed else CatchUp(second.GetOr(passed), ts, p);
    if current < ts + p then current + p else current
  }

  /** Whatever the debug file returns, the next deadline is at least one period away; it is less
      than two periods away unless a known or read deadline was already further, or the chunks of a long
      overrun overshot, and then less than the overrun's runtime away. */
  lemma NextDeadlineBounds(d: nat, ts: nat, rt: nat, p: nat, first: Option<nat>, second: Option<nat>)
    requires p > 0
    ensures NextDeadline(d, ts, rt, p, first, second) >= ts + p
    ensures NextDeadline(d, ts, rt, p, first, second) < ts + 2 * p
      || NextDeadline(d, ts, rt, p, first, second) == d
      || first == Some(NextDeadline(d, ts, rt, p, first, second))
      || second == Some(NextDeadline(d, ts, rt, p, first, second))
      || (OverrunChunks(KnownDeadline(d, ts, p, first), ts, rt, p) > 0
          && NextDeadline(d, ts, rt, p, first, second) < ts + rt)
  {
    hide CatchUp, Missed, OverrunChunks;
    var known := KnownDeadline(d, ts, p, first);
    CatchUpBounds(first.GetOr(0), ts, p);
    MissedReaches(known, ts, rt, p);
    CatchUpBounds(second.GetOr(known + Missed(known, ts, rt, p) * p), ts, p);
  }

  /** Case by case: a deadline a period ahead stays, one less far ahead moves by a period; after a miss a reading
      that is not in the past replaces it, and so it does when no deadline was known. Without a reading a missed
      deadline moves by whole periods. */
  lemma NextDeadlineCases(d: nat, ts: nat, rt: nat, p: nat, first: Option<nat>, second: Option<nat>, x: nat)
    requires p > 0
    ensures d > 0 && d >= ts + p ==> NextDeadline(d, ts, rt, p, first, second) == d
    ensures d > 0 && ts <= d < ts + p ==> NextDeadline(d, ts, rt, p, first, second) == d + p
    ensures 0 < d < ts <= x && second == Some(x) ==>
      NextDeadline(d, ts, rt, p, first, second) == if x < ts + p then x + p else x
    ensures d == 0 && ts <= x && first == Some(x) ==>
      NextDeadline(d, ts, rt, p, first, second) == if x < ts + p then x + p else x
    ensures d > 0 && second == None ==>
      exists n: nat :: NextDeadline(d, ts, rt, p, first, second) == d + n * p
  {
    hide OverrunChunks, CeilDiv;
    MissedReaches(KnownDeadline(d, ts, p, first), ts, rt, p);
    if d > 0 {
      var n := Missed(d, ts, rt, p);
      CatchUpBounds(d + n * p, ts, p);
      Distribute(n, 1, p);
      var next := NextDeadline(d, ts, rt, p, first, None);
      assert next == d + n * p || next == d + (n + 1) * p;
    }
  }

  /** The missed periods bring the deadline to the present, and none is counted without need. */
  lemma MissedReaches(d: nat, ts: nat, rt: nat, p: nat)
    requires p > 0
    ensures d + Missed(d, ts, rt, p) * p >= ts
    ensures d >= ts <==> Missed(d, ts, rt, p) == 0
    ensures d < ts && OverrunChunks(d, ts, rt, p) == 0 ==> d + Missed(d, ts, rt, p) * p < ts + p
    ensures OverrunChunks(d, ts, rt, p) > 0 ==> d + Missed(d, ts, rt, p) * p < ts + rt
  {
    var c := OverrunChunks(d, ts, rt, p);
    var d' := d + c * p;
    CatchUpBounds(d', ts, p);
    ProductNonNegative(c, p);
    Distribute(c, Scanfails(d, ts, rt, p), p);
    assert c == 0 ==> c * p == 0;
  }

  /** Under ftrace the debug file only sets the deadline, when it could be read. */
  method GetSchedInfo(item: Task, reading: Option<nat>)
    modifies item`deadline
    ensures item.deadline == reading.GetOr(old(item.deadline))
  {
    if reading.Some? {
      item.deadline := reading.value;
    }
  }

  /** The counted part of the check: overrun chunks first, the rest as scan failures. */
  method CountMissed(item: Task, ts: nat) returns (failCount: nat)
    requires item.attr.period > 0
    modifies item`deadline, item`dlOverrun, item`dlScanfail
    ensures failCount == Missed(old(item.deadline), ts, item.rt, item.attr.period)
    ensures item.deadline == old(item.deadline) + failCount * item.attr.period
    ensures item.dlScanfail == old(item.dlScanfail) + Scanfails(old(item.deadline), ts, item.rt, item.attr.period)
    ensures item.dlOverrun
      == old(item.dlOverrun) + if old(item.deadline) < ts && item.rt > item.attr.period then 1 else 0
  {
    ghost var d, p := item.deadline, item.attr.period;
    failCount := 0;
    if item.deadline < ts && item.rt > item.attr.period {
      item.dlOverrun := item.dlOverrun + 1;
      var rt := item.rt;
      while rt > item.attr.period
        invariant rt + failCount * p == item.rt && item.deadline == d + failCount * p && 0 < rt
        decreases rt
        modifies item`deadline
      {
        rt := rt - item.attr.period;
        item.deadline := item.deadline + item.attr.period;
        Distribute(failCount, 1, p);
        failCount := failCount + 1;
      }
      DivModUnique(item.rt - 1, p, failCount, rt - 1);
    }
    ghost var chunks := failCount;
    assert chunks == OverrunChunks(d, ts, item.rt, p);
    var advanced, scans := Advance(item.deadline, ts, item.attr.period);
    Distribute(chunks, scans, p);
    item.dlScanfail := item.dlScanfail + scans;
    item.deadline := advanced;
    failCount := failCount + scans;
  }

  /** The known deadline, read and brought to the present when there was none. */
  method FirstDeadline(item: Task, ts: nat, first: Option<nat>)
    requires item.attr.period > 0
    modifies item`deadline
    ensures item.deadline == KnownDeadline(old(item.deadline), ts, item.attr.period, first)
  {
    hide CatchUp, CeilDiv;
    if item.deadline == 0 {
      GetSchedInfo(item, first);
      var advanced, _ := Advance(item.deadline, ts, item.attr.period);
      item.deadline := advanced;
    }
  }

  /** After missed periods the deadline is read again and brought to the present. */
  method RereadDeadline(item: Task, ts: nat, failCount: nat, second: Option<nat>)
    requires item.attr.period > 0
    modifies item`deadline
    ensures item.deadline
         == if failCount == 0 then old(item.deadline)
           else CatchUp(second.GetOr(old(item.deadline)), ts, item.attr.period)
  {
    hide CatchUp, CeilDiv;
    if failCount > 0 {
      GetSchedInfo(item, second);
      var advanced, _ := Advance(item.deadline, ts, item.attr.period);
      item.deadline := advanced;
    }
  }

  /** The deadline part of `pickPidConsolidatePeriod` for a task with a period. */
  method UpdateDeadline(item: Task, ts: nat, first: Option<nat>, second: Option<nat>) returns (failCount: nat)
    requires item.attr.period > 0
    modifies item`deadline, item`dlOverrun, item`dlScanfail
    ensures item.deadline == NextDeadline(old(item.deadline), ts, item.rt, item.attr.period, first, second)
    ensures var known := KnownDeadline(old(item.deadline), ts, item.attr.period, first);
      && failCount == Missed(known, ts, item.rt, item.attr.period)
      && item.dlScanfail == old(item.dlScanfail) + Scanfails(known, ts, item.rt, item.attr.period)
      && item.dlOverrun == old(item.dlOverrun) + if known < ts && item.rt > item.attr.period then 1 else 0
  {
    hide KnownDeadline, CatchUp, Missed, Scanfails, OverrunChunks, CeilDiv;
    FirstDeadline(item, ts, first);
    failCount := CountMissed(item, ts);
    RereadDeadline(item, ts, failCount, second);
    if item.deadline - ts < item.attr.period {
      item.deadline := item.deadline + item.attr.period;
    }
  }

  /** With the tasks on these CPUs: the task ran for `rt`, longer than estimated, and the demand before its
      deadline leaves too little time on CPU `cpu`. */
  ghost predicate BudgetOverrun(item: Task, rt: nat, ts: nat, tasks: seq<Task>, cpus: seq<int>, cpu: int)
    requires |tasks| == |cpus|
    reads item`cdfRuntime, item`deadline
    reads tasks`pid, tasks`deadline, tasks`attr, tasks`cdfPeriod, tasks`cdfRuntime
  {
    item.cdfRuntime != 0 && rt > item.cdfRuntime
    && item.deadline < ts + TotalDemand(tasks, cpus, item.deadline, cpu) + (rt - item.cdfRuntime)
  }

  method IsBudgetOverrun(item: Task, ts: nat, tasks: seq<Task>) returns (overrun: bool)
    ensures overrun == BudgetOverrun(item, item.rt, ts, tasks, Cpus(tasks), item.assignedCPU)
  {
    hide TotalDemand;
    overrun := false;
    if item.cdfRuntime != 0 && item.rt > item.cdfRuntime {
      var late := PickPidCheckBuffer(item, ts, item.rt - item.cdfRuntime, tasks);
      overrun := late != 0;
    }
  }

  /** The state in which a budget is tested: task list, ledgers and the flag of the CPU's tracer, CPUs, and whether
      all that is settled. */
  datatype Start = Start(vs: seq<View>, ls: seq<Ledger>, harmonic: bool, cpus: seq<int>, settled: bool)

  ghost function StartOf(tracers: seq<Tracer>, tasks: seq<Task>, cpu: int, rrtime: nat): (st: Start)
    requires rrtime > 0
    reads tracers, tasks`pid, tasks`assignedCPU, tasks`attr, tasks`cdfRuntime, tasks`cdfPeriod, tasks`param
    ensures |st.ls| == |tracers| && |st.cpus| == |tasks|
  {
    Start(Views(tasks), LedgersOf(tracers), HarmonicFor(tracers, cpu), Cpus(tasks),
          Settled(tracers, Views(tasks), Groups(tasks), rrtime) && TracerFor(tracers, cpu) != null)
  }

  /** Relief was sought for a CPU, with result `done`, from the state in which the tasks were on `cpus` and the
      ledgers were `ls`. */
  ghost predicate ReliefSought(tracers: seq<Tracer>, ls: seq<Ledger>, harmonic: bool, tasks: seq<Task>, cpus: seq<int>,
                               cpu: int, deadline: nat, done: int, answers: nat -> Answers, rrtime: nat)
    requires rrtime > 0 && |tracers| == |ls| && |tasks| == |cpus|
    reads tracers, tasks`pid, tasks`assignedCPU, tasks`attr, tasks`cdfRuntime, tasks`cdfPeriod, tasks`deadline
    reads tasks`param
  {
    Searched(SceneWith(tracers, ls, harmonic, tasks, cpus, cpu, deadline), Views(tasks), done, answers,
             Fixture(Groups(tasks), Conts(tasks), Dues(tasks)),
             TracerFor(tracers, cpu) != null
             && Full(TracerFor(tracers, cpu).State(), TracerFor(tracers, cpu).affinity, Views(tasks), rrtime), rrtime)
  }

  /** What a budget test leaves: relief sought if there was an overrun and nothing changed else; in any state the
      threads only moved with a task of the CPU, and a settled state stays settled. */
  ghost predicate Tested(tracers: seq<Tracer>, tasks: seq<Task>, st: Start, cpu: int, deadline: nat, overrun: bool,
                         done: int, answers: nat -> Answers, rrtime: nat)
    requires rrtime > 0 && |tracers| == |st.ls| && |tasks| == |st.cpus|
    reads tracers, tasks`pid, tasks`assignedCPU, tasks`attr, tasks`cdfRuntime, tasks`cdfPeriod, tasks`deadline
    reads tasks`param
  {
    && AllConsistent(tracers)
    && (!overrun ==> Views(tasks) == st.vs && LedgersOf(tracers) == st.ls && Cpus(tasks) == st.cpus)
    && (overrun ==> ReliefSought(tracers, st.ls, st.harmonic, tasks, st.cpus, cpu, deadline, done, answers, rrtime))
    && MovedWith(tracers, st.vs, Views(tasks), Groups(tasks), Conts(tasks), Dues(tasks), cpu, deadline)
    && (st.settled ==>
          && Settled(tracers, Views(tasks), Groups(tasks), rrtime)
          && OnlyLeft(st.vs, Views(tasks), Groups(tasks), Dues(tasks), cpu, deadline))
  }

  lemma NothingTested(tracers: seq<Tracer>, tasks: seq<Task>, cpu: int, deadline: nat, done: int,
                      answers: nat -> Answers, rrtime: nat)
    requires rrtime > 0 && AllConsistent(tracers)
    ensures Tested(tracers, tasks, StartOf(tracers, tasks, cpu, rrtime), cpu, deadline, false, done, answers, rrtime)
  {
    hide Settled, ReliefSought, MovedWith, OnlyLeft, AllConsistent, Task.Accounted, Group, Named, TracerFor;
    NobodyLeft(Views(tasks), Groups(tasks), Dues(tasks), cpu, deadline);
    NobodyMoved(tracers, Views(tasks), Groups(tasks), Conts(tasks), Dues(tasks), cpu, deadline);
  }

  lemma ReliefTested(tracers: seq<Tracer>, tasks: seq<Task>, st: Start, cpu: int, deadline: nat, done: int,
                     answers: nat -> Answers, rrtime: nat)
    requires rrtime > 0 && |tracers| == |st.ls| && |tasks| == |st.cpus| && AllConsistent(tracers)
    requires Searched(SceneWith(tracers, st.ls, st.harmonic, tasks, st.cpus, cpu, deadline), Views(tasks), done,
                      answers, Fixture(Groups(tasks), Conts(tasks), Dues(tasks)),
                      TracerFor(tracers, cpu) != null
                      && Full(TracerFor(tracers, cpu).State(), TracerFor(tracers, cpu).affinity, Views(tasks), rrtime),
                      rrtime)
    requires MovedWith(tracers, st.vs, Views(tasks), Groups(tasks), Conts(tasks), Dues(tasks), cpu, deadline)
    requires st.settled ==>
      Settled(tracers, Views(tasks), Groups(tasks), rrtime)
      && OnlyLeft(st.vs, Views(tasks), Groups(tasks), Dues(tasks), cpu, deadline)
    ensures Tested(tracers, tasks, st, cpu, deadline, true, done, answers, rrtime)
  {
    hide Settled, MovedWith, OnlyLeft, AllConsistent, Task.Accounted, Group, Named, TracerFor, Searched, SceneWith;
    hide Full;
  }

  /** Seeks relief for the CPU of a task. */
  method SeekRelief(cpu: int, deadline: nat, tracers: seq<Tracer>, tasks: seq<Task>, rrtime: nat,
                    answers: nat -> Answers)
    returns (ghost done: int)
    requires rrtime > 0 && Distinct(tasks) && AllConsistent(tracers)
    modifies tasks`assignedCPU, tasks`resched, tracers
    ensures Tested(tracers, tasks, old(StartOf(tracers, tasks, cpu, rrtime)), cpu, deadline, true, done, answers,
                   rrtime)
  {
    hide Settled, Task.Accounted, Group, Named, Consistent, LoadOf, OnlyLeft, TracerFor, MovedWith, OnlyTo, Agrees;
    hide MainCPU, Distinct, Full, AllConsistent, Searched, Sibling, SceneWith, SceneOf, HarmonicFor, Tested;
    ghost var st := StartOf(tracers, tasks, cpu, rrtime);
    ghost var s := SceneWith(tracers, st.ls, st.harmonic, tasks, st.cpus, cpu, deadline);
    SceneNow(tracers, tasks, cpu, deadline);
    var rv := PickPidReallocCPU(cpu, deadline, tracers, tasks, rrtime, answers);
    done := rv;
    assert SceneWith(tracers, st.ls, st.harmonic, tasks, st.cpus, cpu, deadline) == s;
    ReliefTested(tracers, tasks, st, cpu, deadline, done, answers, rrtime);
  }

  /** Tests and counts an overrun. */
  method NoteOverrun(item: Task, ts: nat, tasks: seq<Task>) returns (overrun: bool)
    modifies item`dlOverrun
    ensures overrun == BudgetOverrun(item, item.rt, ts, tasks, Cpus(tasks), item.assignedCPU)
    ensures item.dlOverrun == old(item.dlOverrun) + if overrun then 1 else 0
  {
    hide BudgetOverrun;
    overrun := IsBudgetOverrun(item, ts, tasks);
    if overrun {
      item.dlOverrun := item.dlOverrun + 1;
    }
  }

  /** The budget part: a task that ran longer than estimated and leaves too little time for the
      others makes its CPU look for relief. */
  method CheckBudget(item: Task, ts: nat, tracers: seq<Tracer>, tasks: seq<Task>, rrtime: nat, answers: nat -> Answers)
    returns (overrun: bool, ghost done: int)
    requires rrtime > 0 && Distinct(tasks) && AllConsistent(tracers)
    modifies item`dlOverrun, tasks`assignedCPU, tasks`resched, tracers
    ensures overrun == BudgetOverrun(item, item.rt, ts, tasks, old(Cpus(tasks)), old(item.assignedCPU))
    ensures item.dlOverrun == old(item.dlOverrun) + if overrun then 1 else 0
    ensures Tested(tracers, tasks, old(StartOf(tracers, tasks, item.assignedCPU, rrtime)), old(item.assignedCPU),
                   item.deadline, overrun, done, answers, rrtime)
  {
    hide Tested, StartOf, BudgetOverrun, AllConsistent, Distinct;
    done := 0;
    ghost var st := StartOf(tracers, tasks, item.assignedCPU, rrtime);
    overrun := NoteOverrun(item, ts, tasks);
    assert StartOf(tracers, tasks, item.assignedCPU, rrtime) == st;
    if overrun {
      done := SeekRelief(item.assignedCPU, item.deadline, tracers, tasks, rrtime, answers);
    } else {
      NothingTested(tracers, tasks, item.assignedCPU, item.deadline, done, answers, rrtime);
    }
  }

  /** One period of skew less per missed period. */
  method DropMissed(item: Task, missed: nat)
    modifies item`dlDiff
    ensures item.dlDiff == old(item.dlDiff) - missed * item.attr.period
  {
    var failCount: nat := missed;
    while failCount > 0
      invariant item.dlDiff == old(item.dlDiff) - (missed - failCount) * item.attr.period
    {
      item.dlDiff := item.dlDiff - item.attr.period;
      Distribute(missed - failCount, 1, item.attr.period);
      failCount := failCount - 1;
    }
  }

  /** The end of the check: the runtime is consumed by the statistics, and one period of skew is
      removed per missed period. */
  method FinishPeriod(item: Task, missed: nat)
    modifies item`rt, item`dlDiff
    ensures item.rt == if old(item.rt) != 0 && item.lastTs != 0 then 0 else old(item.rt)
    ensures item.dlDiff == old(item.dlDiff) - missed * item.attr.period
    ensures missed == 0 ==> item.dlDiff == old(item.dlDiff)
  {
    if item.rt != 0 && item.lastTs != 0 {
      item.rt := 0;
    }
    DropMissed(item, missed);
  }

  /** The same PIDs on the same CPUs, whatever the attributes. */
  ghost predicate SamePlaces(vs: seq<View>, vs': seq<View>) {
    |vs'| == |vs| && forall i :: 0 <= i < |vs| ==> vs'[i].pid == vs[i].pid && vs'[i].cpu == vs[i].cpu
  }

  /** Only PIDs and CPUs matter for who may have moved. */
  lemma MovedFrom(tracers: seq<Tracer>, vs: seq<View>, same: seq<View>, vs': seq<View>, groups: seq<Container?>,
                  conts: seq<Container?>, dues: seq<nat>, cpu: int, deadline: nat)
    requires SamePlaces(vs, same) && MovedWith(tracers, same, vs', groups, conts, dues, cpu, deadline)
    ensures MovedWith(tracers, vs, vs', groups, conts, dues, cpu, deadline)
  {
    hide IsMain;
    forall j | 0 <= j < |vs|
      ensures MayPick(same[j], dues[j], cpu, deadline) <==> MayPick(vs[j], dues[j], cpu, deadline)
    {
    }
  }

  /** Missing attributes are read again; that moves nobody and changes no ledger. */
  method RereadAttr(item: Task, refreshed: Attr, ghost tracers: seq<Tracer>, ghost tasks: seq<Task>, ghost rrtime: nat)
    requires rrtime > 0
    modifies item`attr
    ensures item.attr == if old(item.attr).period == 0 then refreshed else old(item.attr)
    ensures Resumed(old(StartOf(tracers, tasks, item.assignedCPU, rrtime)),
                    StartOf(tracers, tasks, item.assignedCPU, rrtime), old(item.attr).period != 0)
  {
    hide Task.Accounted, HarmonicFor, Group, Settled, TracerFor;
    if item.attr.period == 0 {
      item.attr := refreshed;
    }
  }

  /** How a task's counters and deadline look after the first part of its check: one more period, and for a task
      with a period the missed ones counted apart as overruns and scan failures. */
  ghost predicate Advanced(attr: Attr, rt: nat, deadline: nat, counts: Counts, ts: nat, first: Option<nat>,
                           second: Option<nat>, deadline': nat, counts': Counts, failCount: nat) {
    counts'.count == counts.count + 1
    && if attr.period == 0 then
      && failCount == 0 && counts'.overrun == counts.overrun && counts'.scanfail == counts.scanfail
      && deadline' == if deadline == 0 then first.GetOr(0) else deadline
    else
      var known := KnownDeadline(deadline, ts, attr.period, first);
      && deadline' == NextDeadline(deadline, ts, rt, attr.period, first, second)
      && failCount == Missed(known, ts, rt, attr.period)
      && counts'.scanfail == counts.scanfail + Scanfails(known, ts, rt, attr.period)
      && counts'.overrun == counts.overrun + if known < ts && rt > attr.period then 1 else 0
  }

  /** The counters of a deadline task. */
  datatype Counts = Counts(count: nat, overrun: nat, scanfail: nat)

  ghost function CountsOf(item: Task): Counts
    reads item`dlCount, item`dlOverrun, item`dlScanfail
  {
    Counts(item.dlCount, item.dlOverrun, item.dlScanfail)
  }

  /** The whole of it: the deadline at least a period ahead, and one period of skew less per missed period. */
  ghost predicate Finished(attr: Attr, rt: nat, deadline: nat, diff: int, counts: Counts, ts: nat, first: Option<nat>,
                           second: Option<nat>, deadline': nat, diff': int, counts': Counts, overrun: bool) {
    var passed := counts'.overrun - if overrun then 1 else 0;
    counts'.count == counts.count + 1
    && if attr.period == 0 then
      && diff' == diff && passed == counts.overrun && counts'.scanfail == counts.scanfail
      && deadline' == if deadline == 0 then first.GetOr(0) else deadline
    else
      var known := KnownDeadline(deadline, ts, attr.period, first);
      && deadline' == NextDeadline(deadline, ts, rt, attr.period, first, second) >= ts + attr.period
      && diff' == diff - Missed(known, ts, rt, attr.period) * attr.period
      && counts'.scanfail == counts.scanfail + Scanfails(known, ts, rt, attr.period)
      && passed == counts.overrun + if known < ts && rt > attr.period then 1 else 0
  }

  lemma AdvancedFinished(attr: Attr, rt: nat, deadline: nat, diff: int, counts: Counts, ts: nat, first: Option<nat>,
                         second: Option<nat>, deadline': nat, mid: Counts, failCount: nat, overrun: bool)
    requires Advanced(attr, rt, deadline, counts, ts, first, second, deadline', mid, failCount)
    ensures Finished(attr, rt, deadline, diff, counts, ts, first, second, deadline', diff - failCount * attr.period,
                     mid.(overrun := mid.overrun + if overrun then 1 else 0), overrun)
  {
    hide NextDeadline, Missed, Scanfails, KnownDeadline;
    if attr.period > 0 {
      NextDeadlineBounds(deadline, ts, rt, attr.period, first, second);
    }
  }

  /** The deadline part, with the task's period. */
  method AdvanceDeadline(item: Task, ts: nat, first: Option<nat>, second: Option<nat>) returns (failCount: nat)
    modifies item`dlCount, item`deadline, item`dlOverrun, item`dlScanfail
    ensures Advanced(item.attr, item.rt, old(item.deadline), old(CountsOf(item)), ts, first, second, item.deadline,
                     CountsOf(item), failCount)
  {
    hide NextDeadline, Missed, Scanfails, KnownDeadline;
    failCount := 0;
    item.dlCount := item.dlCount + 1;
    if item.attr.period != 0 {
      failCount := UpdateDeadline(item, ts, first, second);
    } else if item.deadline == 0 {
      GetSchedInfo(item, first);
    }
  }

  /** The first part of a deadline task's period check: missing attributes are read again, and the deadline
      is brought up to date. */
  method StartPeriod(item: Task, ts: nat, refreshed: Attr, first: Option<nat>, second: Option<nat>,
                     ghost tracers: seq<Tracer>, ghost tasks: seq<Task>, ghost rrtime: nat)
    returns (failCount: nat, ghost st: Start)
    requires rrtime > 0
    modifies item`dlCount, item`attr, item`deadline, item`dlOverrun, item`dlScanfail
    ensures item.attr == if old(item.attr).period == 0 then refreshed else old(item.attr)
    ensures Advanced(item.attr, item.rt, old(item.deadline), old(CountsOf(item)), ts, first, second, item.deadline,
                     CountsOf(item), failCount)
    ensures st == StartOf(tracers, tasks, item.assignedCPU, rrtime)
    ensures Resumed(old(StartOf(tracers, tasks, item.assignedCPU, rrtime)), st, old(item.attr).period != 0)
  {
    hide Advanced, Resumed, StartOf;
    RereadAttr(item, refreshed, tracers, tasks, rrtime);
    st := StartOf(tracers, tasks, item.assignedCPU, rrtime);
    failCount := AdvanceDeadline(item, ts, first, second);
  }

  /** The same state but for attributes, which are the same too if `same` says so. */
  ghost predicate Resumed(st: Start, st': Start, same: bool) {
    SamePlaces(st.vs, st'.vs) && st'.ls == st.ls && st'.harmonic == st.harmonic && st'.cpus == st.cpus
    && (same ==> st' == st)
  }

  lemma NotResumed(st: Start)
    ensures Resumed(st, st, true)
  {
  }

  /** What a budget test that followed a resumed state says about the state before. */
  lemma TestedMeans(tracers: seq<Tracer>, tasks: seq<Task>, st: Start, st': Start, same: bool, cpu: int, deadline: nat,
                    overrun: bool, done: int, answers: nat -> Answers, rrtime: nat)
    requires rrtime > 0 && |tracers| == |st'.ls| && |tasks| == |st'.cpus| && Resumed(st, st', same)
    requires Tested(tracers, tasks, st', cpu, deadline, overrun, done, answers, rrtime)
    ensures AllConsistent(tracers)
    ensures overrun ==> ReliefSought(tracers, st.ls, st.harmonic, tasks, st.cpus, cpu, deadline, done, answers, rrtime)
    ensures !overrun ==> Cpus(tasks) == st.cpus && LedgersOf(tracers) == st.ls
    ensures same && st.settled ==> Settled(tracers, Views(tasks), Groups(tasks), rrtime)
    ensures MovedWith(tracers, st.vs, Views(tasks), Groups(tasks), Conts(tasks), Dues(tasks), cpu, deadline)
  {
    hide AllConsistent, ReliefSought, Settled, MovedWith, SamePlaces, Task.Accounted, Group, Named, OnlyLeft;
    MovedFrom(tracers, st.vs, st'.vs, Views(tasks), Groups(tasks), Conts(tasks), Dues(tasks), cpu, deadline);
  }

  /** A deadline task's period check: next deadline, missed periods, relief for its CPU. */
  method CheckDeadlineTask(item: Task, ts: nat, refreshed: Attr, first: Option<nat>, second: Option<nat>,
                           dynamic: bool, tracers: seq<Tracer>, tasks: seq<Task>, rrtime: nat,
                           answers: nat -> Answers)
    returns (failCount: nat, overrun: bool, ghost done: int, ghost st: Start, ghost mid: Counts)
    requires rrtime > 0 && Distinct(tasks) && AllConsistent(tracers)
    modifies item`dlCount, item`attr, item`deadline, item`dlOverrun, item`dlScanfail
    modifies tasks`assignedCPU, tasks`resched, tracers
    ensures item.attr == if old(item.attr).period == 0 then refreshed else old(item.attr)
    ensures Advanced(item.attr, item.rt, old(item.deadline), old(CountsOf(item)), ts, first, second, item.deadline,
                     mid, failCount)
    ensures CountsOf(item) == mid.(overrun := mid.overrun + if overrun then 1 else 0)
    ensures overrun
         == (dynamic && BudgetOverrun(item, item.rt, ts, tasks, old(Cpus(tasks)), old(item.assignedCPU)))
    ensures |st.ls| == |tracers| && |st.cpus| == |tasks|
    ensures Resumed(old(StartOf(tracers, tasks, item.assignedCPU, rrtime)), st, old(item.attr).period != 0)
    ensures Tested(tracers, tasks, st, old(item.assignedCPU), item.deadline, overrun, done, answers, rrtime)
  {
    hide Advanced, Tested, BudgetOverrun, AllConsistent, Distinct, SamePlaces, Settled, HarmonicFor, TracerFor;
    hide Task.Accounted, Group;
    failCount, st := StartPeriod(item, ts, refreshed, first, second, tracers, tasks, rrtime);
    mid := CountsOf(item);
    overrun, done := false, 0;
    if dynamic {
      overrun, done := CheckBudget(item, ts, tracers, tasks, rrtime, answers);
    } else {
      NothingTested(tracers, tasks, item.assignedCPU, item.deadline, done, answers, rrtime);
    }
  }

  /** The same for any task: others have no periods to miss. */
  method CheckAnyTask(item: Task, ts: nat, refreshed: Attr, first: Option<nat>, second: Option<nat>,
                      dynamic: bool, tracers: seq<Tracer>, tasks: seq<Task>, rrtime: nat, answers: nat -> Answers)
    returns (failCount: nat, overrun: bool, ghost done: int, ghost st: Start, ghost mid: Counts)
    requires rrtime > 0 && Distinct(tasks) && AllConsistent(tracers)
    modifies item`dlCount, item`attr, item`deadline, item`dlOverrun, item`dlScanfail
    modifies tasks`assignedCPU, tasks`resched, tracers
    ensures item.attr
      == if old(item.attr).policy == SCHED_DEADLINE && old(item.attr).period == 0 then refreshed else old(item.attr)
    ensures old(item.attr).policy != SCHED_DEADLINE ==>
      failCount == 0 && !overrun && item.deadline == old(item.deadline) && CountsOf(item) == old(CountsOf(item))
    ensures old(item.attr).policy == SCHED_DEADLINE ==>
      && Advanced(item.attr, item.rt, old(item.deadline), old(CountsOf(item)), ts, first, second, item.deadline,
                  mid, failCount)
      && CountsOf(item) == mid.(overrun := mid.overrun + if overrun then 1 else 0)
      && overrun == (dynamic && BudgetOverrun(item, item.rt, ts, tasks, old(Cpus(tasks)), old(item.assignedCPU)))
    ensures |st.ls| == |tracers| && |st.cpus| == |tasks|
    ensures Resumed(old(StartOf(tracers, tasks, item.assignedCPU, rrtime)), st,
                    old(item.attr).policy == SCHED_DEADLINE ==> old(item.attr).period != 0)
    ensures Tested(tracers, tasks, st, old(item.assignedCPU), item.deadline, overrun, done, answers, rrtime)
  {
    hide Advanced, Tested, BudgetOverrun, AllConsistent, Distinct, Resumed, StartOf;
    if item.attr.policy == SCHED_DEADLINE {
      failCount, overrun, done, st, mid :=
        CheckDeadlineTask(item, ts, refreshed, first, second, dynamic, tracers, tasks, rrtime, answers);
    } else {
      failCount, overrun, done, mid := 0, false, 0, CountsOf(item);
      st := StartOf(tracers, tasks, item.assignedCPU, rrtime);
      NotResumed(st);
      NothingTested(tracers, tasks, item.assignedCPU, item.deadline, done, answers, rrtime);
    }
  }

  /** The check and the consumption of the runtime. */
  method CheckAndFinish(item: Task, ts: nat, refreshed: Attr, first: Option<nat>, second: Option<nat>,
                        dynamic: bool, tracers: seq<Tracer>, tasks: seq<Task>, rrtime: nat, answers: nat -> Answers)
    returns (overrun: bool, ghost done: int, ghost st: Start)
    requires rrtime > 0 && Distinct(tasks) && AllConsistent(tracers)
    modifies item`dlCount, item`attr, item`deadline, item`dlOverrun, item`dlScanfail, item`rt, item`dlDiff
    modifies tasks`assignedCPU, tasks`resched, tracers
    ensures item.attr
      == if old(item.attr).policy == SCHED_DEADLINE && old(item.attr).period == 0 then refreshed else old(item.attr)
    ensures item.rt == if old(item.rt) != 0 && item.lastTs != 0 then 0 else old(item.rt)
    ensures old(item.attr).policy != SCHED_DEADLINE ==>
      !overrun && item.deadline == old(item.deadline) && item.dlDiff == old(item.dlDiff)
      && CountsOf(item) == old(CountsOf(item))
    ensures old(item.attr).policy == SCHED_DEADLINE ==>
      Finished(item.attr, old(item.rt), old(item.deadline), old(item.dlDiff), old(CountsOf(item)), ts, first, second,
               item.deadline, item.dlDiff, CountsOf(item), overrun)
      && overrun == (dynamic && BudgetOverrun(item, old(item.rt), ts, tasks, old(Cpus(tasks)), old(item.assignedCPU)))
    ensures |st.ls| == |tracers| && |st.cpus| == |tasks|
    ensures Resumed(old(StartOf(tracers, tasks, item.assignedCPU, rrtime)), st,
                    old(item.attr).policy == SCHED_DEADLINE ==> old(item.attr).period != 0)
    ensures Tested(tracers, tasks, st, old(item.assignedCPU), item.deadline, overrun, done, answers, rrtime)
  {
    hide Tested, AllConsistent, Distinct, Resumed, BudgetOverrun, Finished, Advanced, StartOf;
    ghost var rt, d, diff, counts := item.rt, item.deadline, item.dlDiff, CountsOf(item);
    var failCount;
    ghost var mid;
    failCount, overrun, done, st, mid :=
      CheckAnyTask(item, ts, refreshed, first, second, dynamic, tracers, tasks, rrtime, answers);
    FinishPeriod(item, failCount);
    if old(item.attr).policy == SCHED_DEADLINE {
      AdvancedFinished(item.attr, rt, d, diff, counts, ts, first, second, item.deadline, mid, failCount, overrun);
    }
  }

  /** End of a period, or of a preemption, for one task. `refreshed` is what a re-read of the
      attributes of a task without period gives, `first` and `second` what the debug file gives,
      `dynamic` whether reallocation is enabled, `answers` what the kernel says to each move. `overrun` tells whether
      the budget was overrun and `done` what the search for relief returned then. */
  method PickPidConsolidatePeriod(item: Task, ts: nat, refreshed: Attr, first: Option<nat>, second: Option<nat>,
                                  dynamic: bool, tracers: seq<Tracer>, tasks: seq<Task>, rrtime: nat,
                                  answers: nat -> Answers)
    returns (ghost overrun: bool, ghost done: int)
    requires rrtime > 0 && Distinct(tasks) && AllConsistent(tracers)
    modifies item`dlCount, item`attr, item`deadline, item`dlOverrun, item`dlScanfail, item`rt, item`dlDiff
    modifies tasks`assignedCPU, tasks`resched, tracers
    ensures AllConsistent(tracers)
    ensures item.attr
      == if old(item.attr).policy == SCHED_DEADLINE && old(item.attr).period == 0 then refreshed else old(item.attr)
    ensures item.rt == if old(item.rt) != 0 && item.lastTs != 0 then 0 else old(item.rt)
    // another task has no periods to miss
    ensures old(item.attr).policy != SCHED_DEADLINE ==>
      item.deadline == old(item.deadline) && item.dlDiff == old(item.dlDiff) && CountsOf(item) == old(CountsOf(item))
      && !overrun
    // a deadline task with a period: next deadline, counters, and one period of skew per missed period
    ensures old(item.attr).policy == SCHED_DEADLINE && item.attr.period > 0 ==>
      var known := KnownDeadline(old(item.deadline), ts, item.attr.period, first);
      && item.deadline
           == NextDeadline(old(item.deadline), ts, old(item.rt), item.attr.period, first, second)
           >= ts + item.attr.period
      && item.dlDiff
           == old(item.dlDiff) - Missed(known, ts, old(item.rt), item.attr.period) * item.attr.period
      && item.dlCount == old(item.dlCount) + 1
      && item.dlScanfail == old(item.dlScanfail) + Scanfails(known, ts, old(item.rt), item.attr.period)
      && item.dlOverrun == old(item.dlOverrun)
           + (if known < ts && old(item.rt) > item.attr.period then 1 else 0) + (if overrun then 1 else 0)
    ensures old(item.attr).policy == SCHED_DEADLINE && item.attr.period == 0 ==>
      && item.deadline == (if old(item.deadline) == 0 then first.GetOr(0) else old(item.deadline))
      && item.dlDiff == old(item.dlDiff) && item.dlCount == old(item.dlCount) + 1
      && item.dlScanfail == old(item.dlScanfail) && item.dlOverrun == old(item.dlOverrun) + if overrun then 1 else 0
    // relief is sought exactly after an overrun of the budget
    ensures old(item.attr).policy == SCHED_DEADLINE ==>
      (overrun
       <==> dynamic && item.cdfRuntime != 0 && old(item.rt) > item.cdfRuntime
            && item.deadline
               < ts + TotalDemand(tasks, old(Cpus(tasks)), item.deadline, old(item.assignedCPU))
                 + (old(item.rt) - item.cdfRuntime))
    ensures overrun ==>
      ReliefSought(tracers, old(LedgersOf(tracers)), old(HarmonicFor(tracers, item.assignedCPU)), tasks,
                   old(Cpus(tasks)), old(item.assignedCPU), item.deadline, done, answers, rrtime)
    ensures !overrun ==> Cpus(tasks) == old(Cpus(tasks)) && LedgersOf(tracers) == old(LedgersOf(tracers))
    // accounting and placement stay settled unless the attributes themselves were re-read
    ensures old(Settled(tracers, Views(tasks), Groups(tasks), rrtime)) &&
      TracerFor(tracers, old(item.assignedCPU)) != null
      && (old(item.attr).policy == SCHED_DEADLINE ==> old(item.attr).period != 0)
      ==> Settled(tracers, Views(tasks), Groups(tasks), rrtime)
    // in any state, threads only moved with a container of a task on this CPU that is due before the new deadline
    ensures MovedWith(tracers, old(Views(tasks)), Views(tasks), Groups(tasks), Conts(tasks), Dues(tasks),
                      old(item.assignedCPU), item.deadline)
  {
    hide AllConsistent, Distinct, Settled, HarmonicFor, TracerFor, MovedWith, ReliefSought, TotalDemand;
    hide Task.Accounted, Group, Named, NextDeadline, Missed, Scanfails, KnownDeadline, Tested, Resumed;
    ghost var before, cpu := StartOf(tracers, tasks, item.assignedCPU, rrtime), item.assignedCPU;
    ghost var same := item.attr.policy == SCHED_DEADLINE ==> item.attr.period != 0;
    var exceeded;
    ghost var st;
    exceeded, done, st :=
      CheckAndFinish(item, ts, refreshed, first, second, dynamic, tracers, tasks, rrtime, answers);
    overrun := exceeded;
    TestedMeans(tracers, tasks, before, st, same, cpu, item.deadline, overrun, done, answers, rrtime);
  }
}
