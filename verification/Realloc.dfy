/** Run-time reallocation of `src/orchestrator/manage.c`: moving all threads of a container to
    another CPU, undoing the move when the kernel refuses one of them. */
module Realloc {
  import opened CommonUtil
  import opened Ledgers
  import opened Resources

  ghost predicate Distinct(tasks: seq<Task>) {
    forall i, j :: 0 <= i < j < |tasks| ==> tasks[i] != tasks[j]
  }

  /** The container a live thread belongs to, if any. */
  function Group(t: Task): Container?
    reads t`pid, t`param
  {
    if 0 < t.pid && t.param.Some? then t.param.value.cont else null
  }

  /** A live thread of the same container as `node`. */
  predicate Sibling(t: Task, node: Task)
    reads t`pid, t`param, node`param
  {
    Group(t) != null && node.param.Some? && Group(t) == node.param.value.cont
  }

  /** Asks the kernel to pin a task to its assigned CPU; `accepts` is the kernel's answer. */
  method SetPidAffinityAssigned(item: Task, accepts: bool) returns (rv: int)
    ensures rv == if accepts then 0 else -1
  {
    rv := if accepts then 0 else -1;
  }

  /** What the kernel answers when asked to pin the threads of the list to a new CPU, by position. */
  type Answers = nat -> bool

  /** No flagged thread is refused. */
  ghost predicate AllAccepted(flags: seq<bool>, answers: Answers) {
    forall i :: 0 <= i < |flags| && flags[i] ==> answers(i)
  }

  /** Thread `k` is the first one refused. */
  ghost predicate FirstRefused(flags: seq<bool>, answers: Answers, k: nat) {
    k < |flags| && flags[k] && !answers(k) && forall i :: 0 <= i < k && flags[i] ==> answers(i)
  }

  /** No flagged one of the first `n` threads is refused. */
  ghost predicate AcceptedTo(flags: seq<bool>, answers: Answers, n: nat) {
    n <= |flags| && forall i :: 0 <= i < n && flags[i] ==> answers(i)
  }

  lemma FirstOne(flags: seq<bool>, answers: Answers, k: nat)
    requires AcceptedTo(flags, answers, k) && k < |flags| && flags[k] && !answers(k)
    ensures FirstRefused(flags, answers, k) && !AllAccepted(flags, answers)
  {
  }

  lemma NoneYet(flags: seq<bool>, answers: Answers)
    ensures AcceptedTo(flags, answers, 0)
  {
  }

  lemma AllOfThem(flags: seq<bool>, answers: Answers)
    requires AcceptedTo(flags, answers, |flags|)
    ensures AllAccepted(flags, answers)
  {
  }

  /** How often each task was rescheduled. */
  ghost function Rescheds(tasks: seq<Task>): (rs: seq<nat>)
    reads tasks`resched
    ensures |rs| == |tasks| && forall i :: 0 <= i < |rs| ==> rs[i] == tasks[i].resched
  {
    if tasks == [] then [] else Rescheds(tasks[..|tasks|-1]) + [tasks[|tasks|-1].resched]
  }

  /** Of the first `n` tasks the flagged ones were rescheduled once more. */
  ghost predicate OnceMore(rs: seq<nat>, rs': seq<nat>, flags: seq<bool>, n: nat) {
    |rs| == |rs'| == |flags| && forall i :: 0 <= i < |rs| ==> rs'[i] == rs[i] + if i < n && flags[i] then 1 else 0
  }

  /** `flags` marks the siblings of `node`. */
  ghost predicate Marked(tasks: seq<Task>, node: Task, flags: seq<bool>)
    reads tasks`pid, tasks`param, node`param
  {
    |flags| == |tasks| && forall i :: 0 <= i < |flags| ==> flags[i] == Sibling(tasks[i], node)
  }

  /** The tasks sit where `vs` says, except that the flagged ones of the first `n` are on `cpu`. */
  ghost predicate Placed(tasks: seq<Task>, vs: seq<View>, flags: seq<bool>, n: nat, cpu: int)
    reads tasks`assignedCPU
  {
    |vs| == |flags| == |tasks|
    && forall i :: 0 <= i < |tasks| ==> tasks[i].assignedCPU == if i < n && flags[i] then cpu else vs[i].cpu
  }

  /** The list after the flagged ones of its first `n` entries have been put on `cpu`. */
  ghost predicate Relocated(vs: seq<View>, vs': seq<View>, flags: seq<bool>, n: nat, cpu: int) {
    && |vs| == |vs'| == |flags|
    && forall i :: 0 <= i < |vs| ==> vs'[i] == if i < n && flags[i] then vs[i].(cpu := cpu) else vs[i]
  }

  /** Apart from the placement, `vs` shows the tasks as they are. */
  ghost predicate Recorded(tasks: seq<Task>, vs: seq<View>)
    reads tasks`pid, tasks`attr, tasks`cdfRuntime, tasks`cdfPeriod
  {
    |vs| == |tasks|
    && forall i :: 0 <= i < |vs| ==> vs[i] == View(tasks[i], tasks[i].pid, vs[i].cpu, tasks[i].Accounted())
  }

  lemma PlacedRelocates(tasks: seq<Task>, vs: seq<View>, flags: seq<bool>, n: nat, cpu: int)
    requires Placed(tasks, vs, flags, n, cpu) && Recorded(tasks, vs)
    ensures Relocated(vs, Views(tasks), flags, n, cpu)
  {
    hide Task.Accounted;
  }

  /** Undo of a move: the entry that was refused and the ones before it go to the main CPU of `trc`. */
  method MoveBack(trc: Tracer, tasks: seq<Task>, n: nat, ghost node: Task,
                  ghost vs: seq<View>, ghost flags: seq<bool>, ghost away: int)
    requires Distinct(tasks) && n < |tasks| && Marked(tasks, node, flags) && flags[n]
    requires Placed(tasks, vs, flags, n + 1, away)
    modifies tasks`assignedCPU
    ensures Placed(tasks, vs, flags, n + 1, MainCPU(trc))
  {
    var item := tasks[n];
    item.assignedCPU := GetTracerMainCPU(trc);
    var j := 0;
    while j < |tasks| && tasks[j] != item
      invariant 0 <= j <= n && Marked(tasks, node, flags)
      invariant forall i :: 0 <= i < |tasks| && (i == n || !(j <= i < n && flags[i])) ==>
        tasks[i].assignedCPU == if i <= n && flags[i] then MainCPU(trc) else vs[i].cpu
    {
      var bitem := tasks[j];
      if Sibling(bitem, item) {
        bitem.assignedCPU := GetTracerMainCPU(trc);
        var answer: bool := *;
        var _ := SetPidAffinityAssigned(bitem, answer);
      }
      j := j + 1;
    }
  }

  /** Puts one thread on the main CPU of a tracer, whether or not the kernel accepts. */
  method MoveThread(item: Task, ntrc: Tracer, accepts: bool) returns (accepted: bool)
    modifies item`assignedCPU, item`resched
    ensures accepted == accepts && item.assignedCPU == MainCPU(ntrc)
    ensures item.resched == old(item.resched) + if accepts then 1 else 0
  {
    item.assignedCPU := GetTracerMainCPU(ntrc);
    var refused := SetPidAffinityAssigned(item, accepts);
    accepted := refused == 0;
    if accepted {
      item.resched := item.resched + 1;
    }
  }

  lemma MarkedAt(tasks: seq<Task>, node: Task, flags: seq<bool>, i: nat)
    requires Marked(tasks, node, flags) && i < |tasks|
    ensures |flags| == |tasks| && flags[i] == Sibling(tasks[i], node)
  {
    hide Sibling;
  }

  /** The next sibling is put on the new CPU. */
  method MoveNext(item: Task, i: nat, ntrc: Tracer, tasks: seq<Task>, answers: Answers, ghost vs: seq<View>,
                  ghost rs: seq<nat>, ghost flags: seq<bool>)
    returns (accepted: bool)
    requires AcceptedTo(flags, answers, i)
    requires Distinct(tasks) && i < |tasks| == |flags| && tasks[i] == item && flags[i]
    requires Placed(tasks, vs, flags, i, MainCPU(ntrc)) && OnceMore(rs, Rescheds(tasks), flags, i)
    modifies item`assignedCPU, item`resched
    ensures accepted == answers(i) && Placed(tasks, vs, flags, i + 1, MainCPU(ntrc))
    ensures OnceMore(rs, Rescheds(tasks), flags, if accepted then i + 1 else i)
    ensures accepted ==> AcceptedTo(flags, answers, i + 1)
  {
    hide MainCPU;
    accepted := MoveThread(item, ntrc, answers(i));
  }

  lemma SkipOne(tasks: seq<Task>, vs: seq<View>, rs: seq<nat>, flags: seq<bool>, answers: Answers, i: nat, cpu: int)
    requires i < |flags| && !flags[i] && AcceptedTo(flags, answers, i)
    requires Placed(tasks, vs, flags, i, cpu) && OnceMore(rs, Rescheds(tasks), flags, i)
    ensures AcceptedTo(flags, answers, i + 1)
    ensures Placed(tasks, vs, flags, i + 1, cpu) && OnceMore(rs, Rescheds(tasks), flags, i + 1)
  {
  }

  /** The same if there is an origin to go back to. */
  method UndoIfPossible(trc: Tracer?, ghost ntrc: Tracer, tasks: seq<Task>, n: nat, ghost node: Task,
                        ghost vs: seq<View>, ghost flags: seq<bool>)
    requires Distinct(tasks) && n < |tasks| && Marked(tasks, node, flags) && |flags| == |tasks| && flags[n]
    requires Placed(tasks, vs, flags, n + 1, MainCPU(ntrc))
    modifies tasks`assignedCPU
    ensures Placed(tasks, vs, flags, n + 1, MainCPU(if trc == null then ntrc else trc))
    ensures Rescheds(tasks) == old(Rescheds(tasks))
  {
    hide Placed, Marked, Distinct, MainCPU;
    ghost var rs := Rescheds(tasks);
    if trc != null {
      MoveBack(trc, tasks, n, node, vs, flags, MainCPU(ntrc));
    }
    assert Rescheds(tasks) == rs;
  }

  /** A move after the first `n` entries, all accepted so far. */
  ghost predicate Moving(tasks: seq<Task>, vs: seq<View>, rs: seq<nat>, flags: seq<bool>, answers: Answers, n: nat,
                         cpu: int)
    reads tasks`assignedCPU, tasks`resched
  {
    |flags| == |tasks| && Placed(tasks, vs, flags, n, cpu) && OnceMore(rs, Rescheds(tasks), flags, n)
    && AcceptedTo(flags, answers, n)
  }

  lemma MovingStarts(tasks: seq<Task>, node: Task, vs: seq<View>, rs: seq<nat>, flags: seq<bool>, answers: Answers,
                     cpu: int)
    requires Marked(tasks, node, flags) && Placed(tasks, vs, flags, 0, cpu) && OnceMore(rs, Rescheds(tasks), flags, 0)
    ensures Moving(tasks, vs, rs, flags, answers, 0, cpu)
  {
    hide Placed, OnceMore, Sibling;
    NoneYet(flags, answers);
  }

  lemma MovingEnds(tasks: seq<Task>, vs: seq<View>, rs: seq<nat>, flags: seq<bool>, answers: Answers, cpu: int)
    requires Moving(tasks, vs, rs, flags, answers, |tasks|, cpu)
    ensures AllAccepted(flags, answers) && Placed(tasks, vs, flags, |tasks|, cpu)
    ensures OnceMore(rs, Rescheds(tasks), flags, |tasks|)
  {
    hide Placed, OnceMore;
    AllOfThem(flags, answers);
  }

  /** The next entry of the list is moved if it is a sibling. */
  method MoveIfSibling(item: Task, i: nat, ntrc: Tracer, node: Task, tasks: seq<Task>, answers: Answers,
                       ghost vs: seq<View>, ghost rs: seq<nat>, ghost flags: seq<bool>)
    returns (accepted: bool)
    requires Distinct(tasks) && i < |tasks| && tasks[i] == item && Marked(tasks, node, flags)
    requires Moving(tasks, vs, rs, flags, answers, i, MainCPU(ntrc))
    modifies item`assignedCPU, item`resched
    ensures accepted ==> Moving(tasks, vs, rs, flags, answers, i + 1, MainCPU(ntrc))
    ensures !accepted ==>
      |flags| == |tasks| && flags[i] && !AllAccepted(flags, answers) && FirstRefused(flags, answers, i)
      && Placed(tasks, vs, flags, i + 1, MainCPU(ntrc)) && OnceMore(rs, Rescheds(tasks), flags, i)
  {
    hide Sibling, MainCPU, Distinct, OnceMore, FirstRefused, AllAccepted, Placed, AcceptedTo, Marked;
    MarkedAt(tasks, node, flags, i);
    accepted := true;
    if Sibling(item, node) {
      accepted := MoveNext(item, i, ntrc, tasks, answers, vs, rs, flags);
      if !accepted {
        FirstOne(flags, answers, i);
      }
    } else {
      SkipOne(tasks, vs, rs, flags, answers, i, MainCPU(ntrc));
    }
  }

  /** Moves every live thread of the container of `node`; on a refusal the threads moved so far are
      put on the main CPU of the origin, if there is one. */
  method MoveThreads(ntrc: Tracer, trc: Tracer?, node: Task, tasks: seq<Task>, answers: Answers, ghost vs: seq<View>,
                     ghost rs: seq<nat>, ghost flags: seq<bool>)
    returns (done: bool, ghost k: nat)
    requires Distinct(tasks) && Marked(tasks, node, flags) && Placed(tasks, vs, flags, 0, MainCPU(ntrc))
    requires OnceMore(rs, Rescheds(tasks), flags, 0)
    modifies tasks`assignedCPU, tasks`resched
    ensures done <==> AllAccepted(flags, answers)
    ensures !done ==> FirstRefused(flags, answers, k)
    ensures Placed(tasks, vs, flags, if done then |tasks| else k + 1,
                   MainCPU(if done || trc == null then ntrc else trc))
    ensures OnceMore(rs, Rescheds(tasks), flags, if done then |tasks| else k)
  {
    hide MainCPU, Distinct, OnceMore, FirstRefused, AllAccepted, Placed, Marked, Moving, Rescheds;
    k := 0;
    MovingStarts(tasks, node, vs, rs, flags, answers, MainCPU(ntrc));
    for i := 0 to |tasks|
      invariant Marked(tasks, node, flags) && Moving(tasks, vs, rs, flags, answers, i, MainCPU(ntrc))
    {
      var accepted := MoveIfSibling(tasks[i], i, ntrc, node, tasks, answers, vs, rs, flags);
      if !accepted {
        UndoIfPossible(trc, ntrc, tasks, i, node, vs, flags);
        return false, i;
      }
    }
    MovingEnds(tasks, vs, rs, flags, answers, MainCPU(ntrc));
    return true, k;
  }

  ghost function Flags(tasks: seq<Task>, node: Task): (fs: seq<bool>)
    reads tasks`pid, tasks`param, node`param
    ensures |fs| == |tasks| && forall i :: 0 <= i < |fs| ==> fs[i] == Sibling(tasks[i], node)
  {
    if tasks == [] then [] else Flags(tasks[..|tasks|-1], node) + [Sibling(tasks[|tasks|-1], node)]
  }

  /** The flagged ones of the first `n` tasks are on `cpu`. */
  ghost predicate AllOn(vs: seq<View>, flags: seq<bool>, n: nat, cpu: int) {
    |vs| == |flags| && forall i :: 0 <= i < |vs| && i < n && flags[i] ==> vs[i].cpu == cpu
  }

  /** An undone move is no move exactly when every thread it touched had been on that CPU before. */
  lemma UndoneIffTogether(vs: seq<View>, vs': seq<View>, flags: seq<bool>, n: nat, cpu: int)
    requires Relocated(vs, vs', flags, n, cpu)
    ensures vs' == vs <==> AllOn(vs, flags, n, cpu)
  {
    if vs' == vs {
      forall i | 0 <= i < |vs| && i < n && flags[i] ensures vs[i].cpu == cpu {
        assert vs'[i] == vs[i];
      }
    }
  }

  /** An undone move: the threads up to the first refused one are on CPU `back`, and those before it count as
      rescheduled. */
  ghost predicate Refused(vs: seq<View>, vs': seq<View>, rs: seq<nat>, rs': seq<nat>, flags: seq<bool>,
                          answers: Answers, back: int) {
    exists k: nat ::
      FirstRefused(flags, answers, k) && Relocated(vs, vs', flags, k + 1, back) && OnceMore(rs, rs', flags, k)
  }

  /** The moving half of `PidReallocAndTest`, seen on the whole list. */
  method MoveContainer(ntrc: Tracer, trc: Tracer?, node: Task, tasks: seq<Task>, answers: Answers)
    returns (done: bool, ghost k: nat)
    requires Distinct(tasks)
    modifies tasks`assignedCPU, tasks`resched
    ensures done <==> AllAccepted(old(Flags(tasks, node)), answers)
    ensures !done ==> FirstRefused(old(Flags(tasks, node)), answers, k)
    ensures OnceMore(old(Rescheds(tasks)), Rescheds(tasks), old(Flags(tasks, node)), if done then |tasks| else k)
    ensures done ==> Relocated(old(Views(tasks)), Views(tasks), old(Flags(tasks, node)), |tasks|, MainCPU(ntrc))
    ensures done ==> (Views(tasks) == old(Views(tasks))
      <==> AllOn(old(Views(tasks)), old(Flags(tasks, node)), |tasks|, MainCPU(ntrc)))
    ensures !done ==>
      Relocated(old(Views(tasks)), Views(tasks), old(Flags(tasks, node)), k + 1,
                MainCPU(if trc == null then ntrc else trc))
      && Refused(old(Views(tasks)), Views(tasks), old(Rescheds(tasks)), Rescheds(tasks), old(Flags(tasks, node)),
                 answers, MainCPU(if trc == null then ntrc else trc))
    ensures !done && trc != null && AllOn(old(Views(tasks)), old(Flags(tasks, node)), |tasks|, MainCPU(trc))
      ==> Views(tasks) == old(Views(tasks))
  {
    hide MainCPU, Task.Accounted, Sibling, OnceMore, Refused, AllAccepted, FirstRefused, Distinct;
    ghost var vs, rs, flags := Views(tasks), Rescheds(tasks), Flags(tasks, node);
    done, k := true, 0;
    if node.param.None? {
      NoParamNoSiblings(tasks, node);
      NothingFlagged(vs, rs, flags, answers, MainCPU(ntrc));
      return;
    }
    assert Recorded(tasks, vs);
    NothingYet(rs, flags);
    done, k := MoveThreads(ntrc, trc, node, tasks, answers, vs, rs, flags);
    PlacedRelocates(tasks, vs, flags, if done then |tasks| else k + 1,
                    MainCPU(if done || trc == null then ntrc else trc));
    UndoneIffTogether(vs, Views(tasks), flags, if done then |tasks| else k + 1,
                      MainCPU(if done || trc == null then ntrc else trc));
    if !done {
      RefusedAt(vs, Views(tasks), rs, Rescheds(tasks), flags, answers, k, MainCPU(if trc == null then ntrc else trc));
    }
  }

  lemma RefusedAt(vs: seq<View>, vs': seq<View>, rs: seq<nat>, rs': seq<nat>, flags: seq<bool>, answers: Answers,
                  k: nat, back: int)
    requires FirstRefused(flags, answers, k) && Relocated(vs, vs', flags, k + 1, back) && OnceMore(rs, rs', flags, k)
    ensures Refused(vs, vs', rs, rs', flags, answers, back)
  {
    hide FirstRefused, Relocated, OnceMore;
  }

  lemma NothingYet(rs: seq<nat>, flags: seq<bool>)
    requires |rs| == |flags|
    ensures OnceMore(rs, rs, flags, 0)
  {
  }

  lemma NothingFlagged(vs: seq<View>, rs: seq<nat>, flags: seq<bool>, answers: Answers, to: int)
    requires |vs| == |rs| == |flags| && forall i :: 0 <= i < |flags| ==> !flags[i]
    ensures OnceMore(rs, rs, flags, |rs|) && AllAccepted(flags, answers) && Relocated(vs, vs, flags, |vs|, to)
    ensures AllOn(vs, flags, |vs|, to)
  {
  }

  lemma NoParamNoSiblings(tasks: seq<Task>, node: Task)
    requires node.param.None?
    ensures forall t :: t in tasks ==> !Sibling(t, node)
  {
  }

  /** Recomputes the destination and then the origin of a move; -2 when the origin is overloaded. */
  method RecomputeBoth(ntrc: Tracer, trc: Tracer?, tasks: seq<Task>, rrtime: nat) returns (rv: int)
    requires rrtime > 0 && ntrc != trc
    modifies ntrc, trc
    ensures Consistent(ntrc.State()) &&
      ntrc.State() == Rebuilt(old(ntrc.harmonic), Views(tasks), ntrc.affinity, null, rrtime)
    ensures trc != null ==>
      Consistent(trc.State()) && trc.State() == Rebuilt(old(trc.harmonic), Views(tasks), trc.affinity, null, rrtime)
    ensures rv == if trc != null && LoadOf(trc.State()) > 1.0 then -2 else 0
    ensures ntrc.harmonic == old(ntrc.harmonic) && (trc != null ==> trc.harmonic == old(trc.harmonic))
    ensures Views(tasks) == old(Views(tasks)) && Rescheds(tasks) == old(Rescheds(tasks))
  {
    hide Rebuilt, LoadOf, Consistent, Task.Accounted;
    ghost var vs := Views(tasks);
    var _ := RecomputeTimesU(ntrc, tasks, null, rrtime);
    assert Views(tasks) == vs;
    if trc != null {
      rv := RecomputeTimesU(trc, tasks, null, rrtime);
      assert Views(tasks) == vs;
      return if rv < 0 then -2 else 0;
    }
    return 0;
  }

  /** Moves the container of `node` from `trc` to `ntrc`. 1: nothing to do; 0: moved, origin fine;
      -2: moved, origin still overloaded; -1: refused by the kernel and undone. */
  method PidReallocAndTest(ntrc: Tracer?, trc: Tracer?, node: Task, tasks: seq<Task>, rrtime: nat, answers: Answers)
    returns (rv: int)
    requires rrtime > 0 && Distinct(tasks)
    modifies tasks`assignedCPU, tasks`resched, ntrc, trc
    ensures rv == 1 <==> ntrc == null || ntrc == trc
    ensures rv == 1 || rv == 0 || rv == -1 || rv == -2
    // the answers decide between moved and refused
    ensures rv == -1 <==> ntrc != null && ntrc != trc && !AllAccepted(old(Flags(tasks, node)), answers)
    // no move
    ensures rv == 1 ==> Views(tasks) == old(Views(tasks)) && Rescheds(tasks) == old(Rescheds(tasks))
    ensures rv == 1 || rv == -1 ==> (ntrc != null ==> unchanged(ntrc)) && (trc != null ==> unchanged(trc))
    // all threads moved, both ledgers recomputed
    ensures rv == 0 || rv == -2 ==>
      && Relocated(old(Views(tasks)), Views(tasks), old(Flags(tasks, node)), |tasks|, MainCPU(ntrc))
      && OnceMore(old(Rescheds(tasks)), Rescheds(tasks), old(Flags(tasks, node)), |tasks|)
      && Consistent(ntrc.State()) &&
           ntrc.State() == Rebuilt(old(ntrc.harmonic), Views(tasks), ntrc.affinity, null, rrtime)
      && rv == if trc != null && LoadOf(trc.State()) > 1.0 then -2 else 0
    ensures (rv == 0 || rv == -2) && trc != null ==>
      Consistent(trc.State()) && trc.State() == Rebuilt(old(trc.harmonic), Views(tasks), trc.affinity, null, rrtime)
    ensures (ntrc != null ==> ntrc.harmonic == old(ntrc.harmonic)) &&
      (trc != null ==> trc.harmonic == old(trc.harmonic))
    // reported as moved, but nothing moved: exactly when all threads were there already, or none is of a container
    ensures rv == 0 || rv == -2 ==>
      (Views(tasks) == old(Views(tasks)) <==> AllOn(old(Views(tasks)), old(Flags(tasks, node)), |tasks|, MainCPU(ntrc)))
    // refused: the threads up to the first refused one are on the origin's main CPU, those before it count as moved
    ensures rv == -1 ==>
      Refused(old(Views(tasks)), Views(tasks), old(Rescheds(tasks)), Rescheds(tasks), old(Flags(tasks, node)), answers,
              MainCPU(if trc == null then ntrc else trc))
    // all or nothing
    ensures rv == -1 && trc != null && AllOn(old(Views(tasks)), old(Flags(tasks, node)), |tasks|, MainCPU(trc))
      ==> Views(tasks) == old(Views(tasks))
  {
    hide Rebuilt, LoadOf, Consistent, MainCPU, Task.Accounted, Relocated, Sibling, AllOn, OnceMore;
    hide AllAccepted, FirstRefused, Refused;
    if ntrc == null || ntrc == trc {
      return 1;
    }
    var done;
    ghost var k;
    done, k := MoveContainer(ntrc, trc, node, tasks, answers);
    if !done {
      return -1;
    }
    rv := RecomputeBoth(ntrc, trc, tasks, rrtime);
  }

  /** Who moves: the live threads whose configuration entry names the container that the entry of the node names.
      Everyone else stays. */
  lemma MoversAre(tasks: seq<Task>, node: Task, vs': seq<View>, k: nat, to: int)
    requires k < |tasks| && Relocated(Views(tasks), vs', Flags(tasks, node), |tasks|, to)
    ensures vs'[k].cpu
         == if tasks[k].pid > 0 && tasks[k].param.Some? && node.param.Some? && node.param.value.cont != null
               && tasks[k].param.value.cont == node.param.value.cont
            then to else tasks[k].assignedCPU
  {
    assert Flags(tasks, node)[k] == Sibling(tasks[k], node);
  }

  /** A node without a container has no threads to move, so whatever CPU is asked for, all of them are
      on it: the move is reported as done and nothing changes. */
  lemma NoContainerNothingMoves(tasks: seq<Task>, node: Task, cpu: int)
    requires node.param.None? || node.param.value.cont == null
    ensures AllOn(Views(tasks), Flags(tasks, node), |tasks|, cpu)
  {
  }

  // ---------------------------------------------------------------------------------------
  // The reallocation loop
  // ---------------------------------------------------------------------------------------

  /** Every tracer stands for exactly one CPU, as `createResTracer` builds them. */
  ghost predicate OneCPUEach(tracers: seq<Tracer>) {
    && (forall t, c :: t in tracers && IsBitSet(t.affinity, c) ==> c == MainCPU(t))
    && (forall t :: t in tracers ==> MainCPU(t) != -1)
    && (forall t, u :: t in tracers && u in tracers && MainCPU(t) == MainCPU(u) ==> t == u)
  }

  ghost function Groups(tasks: seq<Task>): (gs: seq<Container?>)
    reads tasks`pid, tasks`param
    ensures |gs| == |tasks| && forall i :: 0 <= i < |gs| ==> gs[i] == Group(tasks[i])
  {
    if tasks == [] then [] else Groups(tasks[..|tasks|-1]) + [Group(tasks[|tasks|-1])]
  }

  /** Live threads of one container share a CPU. */
  ghost predicate Colocated(vs: seq<View>, groups: seq<Container?>) {
    |groups| == |vs| &&
    forall i, j :: 0 <= i < |vs| && 0 <= j < |vs| && groups[i] != null && groups[i] == groups[j] ==>
      vs[i].cpu == vs[j].cpu
  }

  ghost predicate AllAgree(tracers: seq<Tracer>, vs: seq<View>, rrtime: nat)
    requires rrtime > 0
    reads tracers
  {
    forall t :: t in tracers ==> Agrees(t, vs, rrtime)
  }

  /** The state the reallocation loop preserves: every ledger is what a recomputation gives, and
      containers are not split over CPUs. */
  ghost predicate Settled(tracers: seq<Tracer>, vs: seq<View>, groups: seq<Container?>, rrtime: nat)
    requires rrtime > 0
    reads tracers
  {
    && OneCPUEach(tracers) && AllAgree(tracers, vs, rrtime) && Colocated(vs, groups)
    && forall v :: v in vs ==> v.pid != 0
  }

  /** `flags` marks the members of group `g`, all of them on CPU `from`. */
  ghost predicate GroupOn(vs: seq<View>, groups: seq<Container?>, flags: seq<bool>, g: Container?, from: int) {
    |vs| == |groups| == |flags|
    && forall i :: 0 <= i < |vs| ==> (flags[i] <==> g != null && groups[i] == g) && (flags[i] ==> vs[i].cpu == from)
  }

  /** A mask that does not hold the new CPU, and counted none of the moved threads, accounts for the same
      attributes. */
  lemma {:induction false} RelocationUnseen(vs: seq<View>, vs': seq<View>, flags: seq<bool>, to: int, mask: Bitmask)
    requires Relocated(vs, vs', flags, |vs|, to) && !IsBitSet(mask, to)
    requires forall i :: 0 <= i < |vs| && flags[i] ==> !Counts(vs[i], mask, null)
    ensures CountedAttrs(vs', mask, null) == CountedAttrs(vs, mask, null)
  {
    if vs != [] {
      RelocationUnseen(vs[..|vs|-1], vs'[..|vs|-1], flags[..|vs|-1], to, mask);
    }
  }

  /** After a move, tracers that counted none of the moved threads still agree. */
  lemma OthersAgree(t: Tracer, vs: seq<View>, vs': seq<View>, flags: seq<bool>, to: int, rrtime: nat)
    requires rrtime > 0 && Relocated(vs, vs', flags, |vs|, to) && Agrees(t, vs, rrtime)
    requires forall i :: 0 <= i < |vs| && flags[i] ==> !Counts(vs[i], t.affinity, null)
    requires !IsBitSet(t.affinity, to)
    ensures Agrees(t, vs', rrtime)
  {
    hide Booked;
    RelocationUnseen(vs, vs', flags, to, t.affinity);
  }

  /** A tracer that is neither recomputed nor the destination is left stale exactly by the threads that
      leave it, as long as they have a runtime. */
  lemma OthersAgreeIff(t: Tracer, vs: seq<View>, vs': seq<View>, flags: seq<bool>, to: int, rrtime: nat)
    requires rrtime > 0 && Relocated(vs, vs', flags, |vs|, to) && Agrees(t, vs, rrtime)
    requires !IsBitSet(t.affinity, to)
    requires forall i :: 0 <= i < |vs| && flags[i] && Counts(vs[i], t.affinity, null) ==> vs[i].accounted.runtime > 0
    ensures Agrees(t, vs', rrtime) <==> forall i :: 0 <= i < |vs| && flags[i] ==> !Counts(vs[i], t.affinity, null)
  {
    hide Rebuilt, LoadOf;
    if k :| 0 <= k < |vs| && flags[k] && Counts(vs[k], t.affinity, null) {
      assert Dropped(vs, vs', t.affinity, k);
      FewerLessLoad(t.harmonic, vs, vs', t.affinity, rrtime);
    } else {
      OthersAgree(t, vs, vs', flags, to, rrtime);
    }
  }

  /** A completed move leaves every ledger right exactly when each moved thread came from the origin, was on
      the destination already, or was on a CPU without tracer. */
  lemma MovedAllAgreeIff(tracers: seq<Tracer>, trc: Tracer, ntrc: Tracer, vs: seq<View>, vs': seq<View>,
                         flags: seq<bool>, rrtime: nat)
    requires rrtime > 0 && OneCPUEach(tracers) && trc in tracers && ntrc in tracers
    requires Relocated(vs, vs', flags, |vs|, MainCPU(ntrc))
    requires forall i :: 0 <= i < |vs| && flags[i] ==> vs[i].pid > 0 && vs[i].accounted.runtime > 0
    requires forall t :: t in tracers ==> Agrees(t, if t == trc || t == ntrc then vs' else vs, rrtime)
    ensures AllAgree(tracers, vs', rrtime) <==>
      forall i :: 0 <= i < |vs| && flags[i] ==>
        vs[i].cpu == MainCPU(trc) || vs[i].cpu == MainCPU(ntrc) || TracerFor(tracers, vs[i].cpu) == null
  {
    hide MainCPU, Agrees;
    forall t | t in tracers && t != trc && t != ntrc
      ensures Agrees(t, vs', rrtime) <==> forall i :: 0 <= i < |vs| && flags[i] ==> !Counts(vs[i], t.affinity, null)
    {
      OthersAgreeIff(t, vs, vs', flags, MainCPU(ntrc), rrtime);
    }
    if AllAgree(tracers, vs', rrtime) {
      forall i | 0 <= i < |vs| && flags[i] && TracerFor(tracers, vs[i].cpu) != null
        ensures vs[i].cpu == MainCPU(trc) || vs[i].cpu == MainCPU(ntrc)
      {
        var t := TracerFor(tracers, vs[i].cpu);
        assert Counts(vs[i], t.affinity, null);
      }
    }
  }

  /** Two threads of a container on CPUs 0 and 1, moved from CPU 0 to CPU 2: the account of CPU 1 keeps a
      thread that is gone; and had the move been refused, undoing it would have taken that thread to CPU 0. */
  lemma SplitContainerGoesWrong(a: Task, b: Task, rrtime: nat)
    requires rrtime > 0
    ensures var one := Attr(SCHED_DEADLINE, 10, 100);
      var vs, moved := [View(a, 1, 0, one), View(b, 2, 1, one)], [View(a, 1, 2, one), View(b, 2, 2, one)];
      var undone, flags := [View(a, 1, 0, one), View(b, 2, 0, one)], [true, true];
      && Relocated(vs, moved, flags, 2, 2) && Relocated(vs, undone, flags, 2, 0) && undone != vs
      && Rebuilt(true, vs, [false, true, false], null, rrtime).used == 10
      && Rebuilt(true, moved, [false, true, false], null, rrtime).used == 0
  {
    var one := Attr(SCHED_DEADLINE, 10, 100);
    CountTwo(View(a, 1, 0, one), View(b, 2, 1, one), [false, true, false]);
    CountTwo(View(a, 1, 2, one), View(b, 2, 2, one), [false, true, false]);
    BookedOne(one, rrtime);
    assert View(b, 2, 0, one) != View(b, 2, 1, one);
  }

  lemma CountTwo(v: View, w: View, mask: Bitmask)
    ensures CountedAttrs([v, w], mask, null)
         == (if Counts(v, mask, null) then [v.accounted] else []) + if Counts(w, mask, null) then [w.accounted] else []
  {
    assert [v, w][..1] == [v] && [v][..0] == [];
    assert CountedAttrs([v], mask, null) == if Counts(v, mask, null) then [v.accounted] else [];
  }

  lemma BookedOne(a: Attr, rrtime: nat)
    requires a.policy == SCHED_DEADLINE && a.period > 0
    ensures Chargeable([a], rrtime) && Booked(Empty(false), [a], rrtime).used == a.runtime
  {
    assert [a][..0] == [];
    DividesProduct(a.period, a.runtime);
  }

  /** Moving a whole group keeps all groups together. */
  lemma ColocatedAfter(vs: seq<View>, vs': seq<View>, groups: seq<Container?>, flags: seq<bool>, g: Container?,
                       from: int, to: int)
    requires Colocated(vs, groups) && GroupOn(vs, groups, flags, g, from) && Relocated(vs, vs', flags, |vs|, to)
    ensures Colocated(vs', groups)
  {
  }

  /** In a settled state the siblings of a live task are its group, and all sit on its CPU. */
  lemma FlagsAreGroup(tasks: seq<Task>, k: nat)
    requires k < |tasks| && tasks[k].pid > 0 && Colocated(Views(tasks), Groups(tasks))
    ensures GroupOn(Views(tasks), Groups(tasks), Flags(tasks, tasks[k]), Group(tasks[k]), tasks[k].assignedCPU)
  {
    hide Task.Accounted;
  }

  /** A task's tracer, where tracers have one CPU each, has the task's CPU as its main CPU. */
  lemma OwnMainCPU(tracers: seq<Tracer>, cpu: int)
    requires OneCPUEach(tracers) && TracerFor(tracers, cpu) != null
    ensures MainCPU(TracerFor(tracers, cpu)) == cpu
  {
  }

  /** A completed move of a group keeps everything settled. */
  lemma MovedStaysSettled(tracers: seq<Tracer>, trc: Tracer, ntrc: Tracer, vs: seq<View>, vs': seq<View>,
                          groups: seq<Container?>, flags: seq<bool>, g: Container?, rrtime: nat)
    requires rrtime > 0 && OneCPUEach(tracers) && trc in tracers && ntrc in tracers
    requires Colocated(vs, groups) && forall v :: v in vs ==> v.pid != 0
    requires GroupOn(vs, groups, flags, g, MainCPU(trc)) && Relocated(vs, vs', flags, |vs|, MainCPU(ntrc))
    requires forall t :: t in tracers ==> Agrees(t, if t == trc || t == ntrc then vs' else vs, rrtime)
    ensures Settled(tracers, vs', groups, rrtime)
  {
    hide MainCPU, Agrees;
    forall t | t in tracers ensures Agrees(t, vs', rrtime) {
      if t != trc && t != ntrc {
        OthersAgree(t, vs, vs', flags, MainCPU(ntrc), rrtime);
      }
    }
    ColocatedAfter(vs, vs', groups, flags, g, MainCPU(trc), MainCPU(ntrc));
    forall v | v in vs' ensures v.pid != 0 {
      var i :| 0 <= i < |vs'| && vs'[i] == v;
      assert vs[i] in vs;
    }
  }

  /** A task that the loop may pick: not deactivated, on the CPU, and due before the deadline given, if any. */
  predicate MayPick(v: View, due: nat, cpu: int, deadline: nat) {
    v.cpu == cpu && v.pid >= 0 && (deadline == 0 || due < deadline)
  }

  /** One that is also live, and so moves with its container. */
  predicate Candidate(v: View, due: nat, cpu: int, deadline: nat) {
    v.pid > 0 && MayPick(v, due, cpu, deadline)
  }

  /** The container in the configuration of a task, live or not. */
  function Named(t: Task): Container?
    reads t`param
  {
    if t.param.Some? then t.param.value.cont else null
  }

  ghost function Conts(tasks: seq<Task>): (cs: seq<Container?>)
    reads tasks`param
    ensures |cs| == |tasks| && forall i :: 0 <= i < |cs| ==> cs[i] == Named(tasks[i])
  {
    if tasks == [] then [] else Conts(tasks[..|tasks|-1]) + [Named(tasks[|tasks|-1])]
  }

  /** What no reallocation changes: containers, configured and of live threads, and deadlines. */
  datatype Fixture = Fixture(groups: seq<Container?>, conts: seq<Container?>, dues: seq<nat>)

  ghost predicate IsFixture(tasks: seq<Task>, fx: Fixture)
    reads tasks`pid, tasks`param, tasks`deadline
  {
    fx.groups == Groups(tasks) && fx.conts == Conts(tasks) && fx.dues == Dues(tasks)
  }

  ghost predicate IsMain(tracers: seq<Tracer>, cpu: int) {
    exists t :: t in tracers && MainCPU(t) == cpu
  }

  /** Threads only changed their CPU, to the main CPU of some tracer, and only those of a container that the
      loop may have picked a task of. */
  ghost predicate MovedWith(tracers: seq<Tracer>, vs: seq<View>, vs': seq<View>, groups: seq<Container?>,
                            conts: seq<Container?>, dues: seq<nat>, cpu: int, deadline: nat) {
    && |vs| == |vs'| == |groups| == |conts| == |dues|
    && forall i :: 0 <= i < |vs| ==>
         && vs'[i].pid == vs[i].pid
         && (vs'[i].cpu == vs[i].cpu
             || (groups[i] != null && IsMain(tracers, vs'[i].cpu)
                 && exists j :: 0 <= j < |vs| && conts[j] == groups[i] && MayPick(vs[j], dues[j], cpu, deadline)))
  }

  lemma NobodyMoved(tracers: seq<Tracer>, vs: seq<View>, groups: seq<Container?>, conts: seq<Container?>,
                    dues: seq<nat>, cpu: int, deadline: nat)
    requires |vs| == |groups| == |conts| == |dues|
    ensures MovedWith(tracers, vs, vs, groups, conts, dues, cpu, deadline)
  {
  }

  /** Whatever the kernel answered, one attempt on task `k` only moved siblings of that task. */
  lemma AttemptMoved(tracers: seq<Tracer>, vs: seq<View>, vs': seq<View>, groups: seq<Container?>,
                     conts: seq<Container?>, dues: seq<nat>, flags: seq<bool>, n: nat, to: int, k: nat, cpu: int,
                     deadline: nat)
    requires |vs| == |groups| == |conts| == |dues| && k < |vs| && MayPick(vs[k], dues[k], cpu, deadline)
    requires Relocated(vs, vs', flags, n, to) && IsMain(tracers, to)
    requires forall i :: 0 <= i < |vs| && flags[i] ==> groups[i] != null && groups[i] == conts[k]
    ensures MovedWith(tracers, vs, vs', groups, conts, dues, cpu, deadline)
  {
    hide IsMain, MayPick;
  }

  /** A container picked from later had a task to pick from the start: whoever came to the CPU meanwhile came
      with a container picked from before. */
  lemma MovedTwice(tracers: seq<Tracer>, vs: seq<View>, vs': seq<View>, vs'': seq<View>, groups: seq<Container?>,
                   conts: seq<Container?>, dues: seq<nat>, cpu: int, deadline: nat)
    requires MovedWith(tracers, vs, vs', groups, conts, dues, cpu, deadline)
    requires MovedWith(tracers, vs', vs'', groups, conts, dues, cpu, deadline)
    requires forall i :: 0 <= i < |groups| && groups[i] != null ==> conts[i] == groups[i]
    ensures MovedWith(tracers, vs, vs'', groups, conts, dues, cpu, deadline)
  {
    hide IsMain;
    forall i | 0 <= i < |vs| && vs''[i].cpu != vs[i].cpu
      ensures groups[i] != null && IsMain(tracers, vs''[i].cpu)
      ensures exists j :: 0 <= j < |vs| && conts[j] == groups[i] && MayPick(vs[j], dues[j], cpu, deadline)
    {
      if vs''[i].cpu != vs'[i].cpu {
        var j :| 0 <= j < |vs'| && conts[j] == groups[i] && MayPick(vs'[j], dues[j], cpu, deadline);
        if vs'[j].cpu == vs[j].cpu {
          assert MayPick(vs[j], dues[j], cpu, deadline);
        }
      }
    }
  }

  /** Threads only came to one CPU. */
  ghost predicate OnlyTo(vs: seq<View>, vs': seq<View>, cpu: int) {
    |vs| == |vs'| && forall i :: 0 <= i < |vs| ==> vs'[i] == vs[i] || vs'[i] == vs[i].(cpu := cpu)
  }

  /** A ledger is above capacity, and a recomputation would find it so too. */
  ghost predicate Full(l: Ledger, mask: Bitmask, vs: seq<View>, rrtime: nat)
    requires rrtime > 0
  {
    LoadOf(l) > 1.0 && LoadOf(Rebuilt(l.harmonic, vs, mask, null, rrtime)) > 1.0
  }

  /** Threads that come to a CPU of a full tracer leave it full. */
  lemma StaysFull(l: Ledger, mask: Bitmask, vs: seq<View>, vs': seq<View>, cpu: int, rrtime: nat)
    requires rrtime > 0 && Full(l, mask, vs, rrtime) && OnlyTo(vs, vs', cpu) && IsBitSet(mask, cpu)
    ensures Full(l, mask, vs', rrtime)
  {
    hide Rebuilt, LoadOf;
    FewerLessLoad(l.harmonic, vs', vs, mask, rrtime);
  }

  lemma ToTwice(vs: seq<View>, vs': seq<View>, vs'': seq<View>, cpu: int)
    requires OnlyTo(vs, vs', cpu) && OnlyTo(vs', vs'', cpu)
    ensures OnlyTo(vs, vs'', cpu)
  {
  }

  /** What an attempt that did not help leaves behind: the tracer is full, or threads at most came to its main
      CPU and its ledger was at most recomputed. */
  ghost predicate NoRelief(l: Ledger, l': Ledger, mask: Bitmask, vs: seq<View>, vs': seq<View>, cpu: int, rrtime: nat)
    requires rrtime > 0
  {
    Full(l', mask, vs', rrtime)
    || (OnlyTo(vs, vs', cpu) && (l' == l || l' == Rebuilt(l.harmonic, vs, mask, null, rrtime)))
  }

  /** Several such attempts: the tracer is full, or threads at most came to its main CPU. */
  lemma StillNoRelief(before: seq<View>, l: Ledger, l': Ledger, mask: Bitmask, vs: seq<View>, vs': seq<View>, cpu: int,
                      rrtime: nat)
    requires rrtime > 0 && NoRelief(l, l', mask, vs, vs', cpu, rrtime) && IsBitSet(mask, cpu)
    requires Full(l, mask, vs, rrtime) || OnlyTo(before, vs, cpu)
    ensures Full(l', mask, vs', rrtime) || OnlyTo(before, vs', cpu)
  {
    hide LoadOf, Booked;
    if !Full(l', mask, vs', rrtime) {
      if OnlyTo(before, vs, cpu) {
        ToTwice(before, vs, vs', cpu);
      } else {
        RebuiltTwice(l.harmonic, vs, mask, rrtime);
        StaysFull(l', mask, vs, vs', cpu, rrtime);
      }
    }
  }

  lemma RebuiltTwice(harmonic: bool, vs: seq<View>, mask: Bitmask, rrtime: nat)
    requires rrtime > 0
    ensures Rebuilt(harmonic, vs, mask, null, rrtime).harmonic == harmonic
  {
  }

  /** Tasks only left the CPU, and only with a container that has a candidate. */
  ghost predicate OnlyLeft(vs: seq<View>, vs': seq<View>, groups: seq<Container?>, dues: seq<nat>, cpu: int,
                           deadline: nat) {
    && |vs| == |vs'| == |groups| == |dues|
    && forall i :: 0 <= i < |vs| ==>
         vs'[i] == vs[i]
         || (vs[i].cpu == cpu && vs'[i].cpu != cpu && vs'[i] == vs[i].(cpu := vs'[i].cpu)
             && exists j :: 0 <= j < |vs| && groups[j] == groups[i] && Candidate(vs[j], dues[j], cpu, deadline))
  }

  lemma NobodyLeft(vs: seq<View>, groups: seq<Container?>, dues: seq<nat>, cpu: int, deadline: nat)
    requires |vs| == |groups| == |dues|
    ensures OnlyLeft(vs, vs, groups, dues, cpu, deadline)
  {
  }

  lemma LeftTwice(vs: seq<View>, vs': seq<View>, vs'': seq<View>, groups: seq<Container?>, dues: seq<nat>, cpu: int,
                  deadline: nat)
    requires OnlyLeft(vs, vs', groups, dues, cpu, deadline) && OnlyLeft(vs', vs'', groups, dues, cpu, deadline)
    ensures OnlyLeft(vs, vs'', groups, dues, cpu, deadline)
  {
    forall i | 0 <= i < |vs| && vs''[i] != vs[i]
      ensures exists j :: 0 <= j < |vs| && groups[j] == groups[i] && Candidate(vs[j], dues[j], cpu, deadline)
    {
      if vs'[i] == vs[i] {
        var j :| 0 <= j < |vs'| && groups[j] == groups[i] && Candidate(vs'[j], dues[j], cpu, deadline);
        assert Candidate(vs[j], dues[j], cpu, deadline);
      }
    }
  }

  /** A whole group leaves the CPU of one of its members. */
  lemma GroupLeft(vs: seq<View>, vs': seq<View>, groups: seq<Container?>, dues: seq<nat>, flags: seq<bool>,
                  g: Container?, k: nat, cpu: int, to: int, deadline: nat)
    requires |vs| == |groups| == |dues| && k < |vs| && groups[k] == g &&
      Candidate(vs[k], dues[k], cpu, deadline) && to != cpu
    requires GroupOn(vs, groups, flags, g, cpu) && Relocated(vs, vs', flags, |vs|, to)
    ensures OnlyLeft(vs, vs', groups, dues, cpu, deadline)
  {
  }

  ghost function Dues(tasks: seq<Task>): (ds: seq<nat>)
    reads tasks`deadline
    ensures |ds| == |tasks| && forall i :: 0 <= i < |ds| ==> ds[i] == tasks[i].deadline
  {
    if tasks == [] then [] else Dues(tasks[..|tasks|-1]) + [tasks[|tasks|-1].deadline]
  }

  /** The siblings of a task belong to the container it names. */
  lemma FlagsAreNamed(tasks: seq<Task>, k: nat)
    requires k < |tasks|
    ensures forall i :: 0 <= i < |tasks| && Flags(tasks, tasks[k])[i] ==>
      Groups(tasks)[i] != null && Groups(tasks)[i] == Conts(tasks)[k]
    ensures forall i :: 0 <= i < |tasks| && Groups(tasks)[i] != null ==> Conts(tasks)[i] == Groups(tasks)[i]
  {
  }

  lemma NobodyCame(vs: seq<View>)
    ensures forall cpu :: OnlyTo(vs, vs, cpu)
  {
  }

  lemma RelocatedOnlyTo(vs: seq<View>, vs': seq<View>, flags: seq<bool>, n: nat, cpu: int)
    requires Relocated(vs, vs', flags, n, cpu)
    ensures OnlyTo(vs, vs', cpu)
  {
  }

  /** The list after an attempted move, by its result: untouched, put back up to the refused thread, or moved. */
  ghost predicate Outcome(vs: seq<View>, vs': seq<View>, flags: seq<bool>, rv: int, to: int, back: int) {
    |flags| == |vs| &&
    if rv == 1 then vs' == vs
    else if rv == -1 then exists n :: 0 < n <= |vs| && Relocated(vs, vs', flags, n, back)
    else Relocated(vs, vs', flags, |vs|, to)
  }

  lemma IsOutcome(vs: seq<View>, vs': seq<View>, rs: seq<nat>, rs': seq<nat>, flags: seq<bool>, answers: Answers,
                  rv: int, to: int, back: int)
    requires |flags| == |vs| && (rv == 1 ==> vs' == vs)
    requires rv == -1 ==> Refused(vs, vs', rs, rs', flags, answers, back)
    requires rv != 1 && rv != -1 ==> Relocated(vs, vs', flags, |vs|, to)
    ensures Outcome(vs, vs', flags, rv, to, back)
  {
    hide Relocated, OnceMore;
    if rv == -1 {
      var k: nat :|
        FirstRefused(flags, answers, k) && Relocated(vs, vs', flags, k + 1, back) && OnceMore(rs, rs', flags, k);
      assert 0 < k + 1 <= |vs| && Relocated(vs, vs', flags, k + 1, back);
    }
  }

  /** Which threads an attempt on task `k` may have moved. */
  lemma AttemptOutcome(tracers: seq<Tracer>, vs: seq<View>, vs': seq<View>, groups: seq<Container?>,
                       conts: seq<Container?>, dues: seq<nat>, flags: seq<bool>, k: nat, cpu: int, deadline: nat,
                       rv: int, to: int, back: int)
    requires |vs| == |groups| == |conts| == |dues| && k < |vs| && MayPick(vs[k], dues[k], cpu, deadline)
    requires Outcome(vs, vs', flags, rv, to, back) && (rv != 1 ==> IsMain(tracers, to) && IsMain(tracers, back))
    requires forall i :: 0 <= i < |vs| && flags[i] ==> groups[i] != null && groups[i] == conts[k]
    ensures MovedWith(tracers, vs, vs', groups, conts, dues, cpu, deadline)
    ensures rv == 1 || rv == -1 ==> OnlyTo(vs, vs', back)
  {
    hide Relocated, MovedWith, MayPick, OnlyTo, IsMain;
    NobodyCame(vs);
    if rv == 1 {
      NobodyMoved(tracers, vs, groups, conts, dues, cpu, deadline);
    } else if rv == -1 {
      var n :| 0 < n <= |vs| && Relocated(vs, vs', flags, n, back);
      AttemptMoved(tracers, vs, vs', groups, conts, dues, flags, n, back, k, cpu, deadline);
      RelocatedOnlyTo(vs, vs', flags, n, back);
    } else {
      AttemptMoved(tracers, vs, vs', groups, conts, dues, flags, |vs|, to, k, cpu, deadline);
    }
  }

  /** A move with its outcome in brief, whatever the kernel answers. */
  method MoveBriefly(ntrc: Tracer?, trc: Tracer?, tracers: seq<Tracer>, node: Task, tasks: seq<Task>, rrtime: nat,
                 answers: Answers)
    returns (rv: int)
    requires rrtime > 0 && Distinct(tasks) && AllConsistent(tracers)
    requires (trc != null ==> trc in tracers) && (ntrc != null ==> ntrc in tracers)
    modifies tasks`assignedCPU, tasks`resched, ntrc, trc
    ensures AllConsistent(tracers) && (rv == 1 <==> ntrc == null || ntrc == trc)
    ensures rv == -1 <==> rv != 1 && !AllAccepted(old(Flags(tasks, node)), answers)
    ensures Outcome(old(Views(tasks)), Views(tasks), old(Flags(tasks, node)), rv,
                    if ntrc == null then -1 else MainCPU(ntrc),
                    if trc != null then MainCPU(trc) else if ntrc == null then -1 else MainCPU(ntrc))
    ensures rv == 1 || rv == -1 ==>
      (ntrc != null ==> unchanged(ntrc)) && (trc != null ==> unchanged(trc))
    ensures rv != 1 && rv != -1 ==>
      && Agrees(ntrc, Views(tasks), rrtime) && (trc != null ==> Agrees(trc, Views(tasks), rrtime))
      && rv == if trc != null && LoadOf(trc.State()) > 1.0 then -2 else 0
  {
    hide LoadOf, Consistent, Rebuilt, MainCPU, Sibling, Group, Task.Accounted, Relocated, AllOn, Distinct;
    hide AllAccepted, OnceMore, Refused, Outcome;
    ghost var vs, rs, flags := Views(tasks), Rescheds(tasks), Flags(tasks, node);
    rv := PidReallocAndTest(ntrc, trc, node, tasks, rrtime, answers);
    IsOutcome(vs, Views(tasks), rs, Rescheds(tasks), flags, answers, rv, if ntrc == null then -1 else MainCPU(ntrc),
              if trc != null then MainCPU(trc) else if ntrc == null then -1 else MainCPU(ntrc));
  }

  /** The same, with what a move leaves alone. */
  method MoveFor(ntrc: Tracer?, trc: Tracer?, tracers: seq<Tracer>, node: Task, tasks: seq<Task>, rrtime: nat,
                 answers: Answers, ghost fx: Fixture)
    returns (rv: int)
    requires rrtime > 0 && Distinct(tasks) && AllConsistent(tracers)
    requires (trc != null ==> trc in tracers) && (ntrc != null ==> ntrc in tracers) && IsFixture(tasks, fx)
    modifies tasks`assignedCPU, tasks`resched, ntrc, trc
    ensures AllConsistent(tracers) && (rv == 1 <==> ntrc == null || ntrc == trc)
    ensures rv == -1 <==> rv != 1 && !AllAccepted(old(Flags(tasks, node)), answers)
    ensures IsFixture(tasks, fx)
    ensures Outcome(old(Views(tasks)), Views(tasks), old(Flags(tasks, node)), rv,
                    if ntrc == null then -1 else MainCPU(ntrc),
                    if trc != null then MainCPU(trc) else if ntrc == null then -1 else MainCPU(ntrc))
    ensures rv == 1 ==> LedgersOf(tracers) == old(LedgersOf(tracers))
    ensures rv == 1 || rv == -1 ==>
      (ntrc != null ==> unchanged(ntrc)) && (trc != null ==> unchanged(trc))
    ensures rv != 1 && rv != -1 ==>
      && Agrees(ntrc, Views(tasks), rrtime) && (trc != null ==> Agrees(trc, Views(tasks), rrtime))
      && rv == if trc != null && LoadOf(trc.State()) > 1.0 then -2 else 0
  {
    hide LoadOf, AllConsistent, Rebuilt, MainCPU, Sibling, Group, Named, Task.Accounted, AllAccepted, Outcome, Agrees;
    hide Distinct, IsFixture;
    rv := MoveBriefly(ntrc, trc, tracers, node, tasks, rrtime, answers);
  }

  /** What such a move means in a settled state, made for a task on the CPU of `trc`. */
  lemma SettledOutcome(tracers: seq<Tracer>, trc: Tracer, ntrc: Tracer?, vs: seq<View>, vs': seq<View>,
                       groups: seq<Container?>, dues: seq<nat>, flags: seq<bool>, k: nat, deadline: nat, rv: int,
                       rrtime: nat)
    requires rrtime > 0 && OneCPUEach(tracers) && trc in tracers && Colocated(vs, groups)
    requires forall v :: v in vs ==> v.pid != 0
    requires |vs| == |dues| && k < |vs| == |groups| && Candidate(vs[k], dues[k], MainCPU(trc), deadline)
    requires GroupOn(vs, groups, flags, groups[k], MainCPU(trc))
    requires rv != 1 ==> ntrc != null && ntrc in tracers && ntrc != trc
    requires Outcome(vs, vs', flags, rv, if ntrc == null then -1 else MainCPU(ntrc), MainCPU(trc))
    requires forall t :: t in tracers ==>
      Agrees(t, if rv != 1 && rv != -1 && (t == trc || t == ntrc) then vs' else vs, rrtime)
    ensures Settled(tracers, vs', groups, rrtime)
    ensures OnlyLeft(vs, vs', groups, dues, MainCPU(trc), deadline)
    ensures rv == 1 || rv == -1 ==> vs' == vs
  {
    hide MainCPU, Agrees, Colocated, Candidate, OnlyLeft;
    if rv == 1 || rv == -1 {
      if rv == -1 {
        var n :| 0 < n <= |vs| && Relocated(vs, vs', flags, n, MainCPU(trc));
        UndoneIffTogether(vs, vs', flags, n, MainCPU(trc));
      }
      NobodyLeft(vs, groups, dues, MainCPU(trc), deadline);
    } else {
      MovedStaysSettled(tracers, trc, ntrc, vs, vs', groups, flags, groups[k], rrtime);
      GroupLeft(vs, vs', groups, dues, flags, groups[k], k, MainCPU(trc), MainCPU(ntrc), deadline);
    }
  }

  /** One attempt of the loop: nothing but the ledger of `trc` changes unless another tracer was found; then all
      siblings are moved there, or some are refused. `l` and `ls'` are ledgers before and after. */
  ghost predicate Tried(tracers: seq<Tracer>, trc: Tracer?, found: Tracer?, ls: seq<Ledger>, ls': seq<Ledger>,
                        vs: seq<View>, vs': seq<View>, flags: seq<bool>, answers: Answers, rv: int, rrtime: nat)
    requires rrtime > 0
  {
    && |ls| == |ls'| == |tracers| && |flags| == |vs|
    && (rv == 1 <==> found == null || found == trc)
    && (rv == 1 ==> vs' == vs && forall i :: 0 <= i < |tracers| && tracers[i] != trc ==> ls'[i] == ls[i])
    && (rv == -1 <==> rv != 1 && !AllAccepted(flags, answers))
    && (rv != 1 && rv != -1 ==> Relocated(vs, vs', flags, |vs|, MainCPU(found)) && (rv == 0 || rv == -2))
    && (rv == 0 || rv == -2 ==>
          (rv == 0 <==> trc == null || LoadOf(Rebuilt(false, vs', trc.affinity, null, rrtime)) <= 1.0))
  }

  lemma AgreedLoad(t: Tracer, vs: seq<View>, rrtime: nat)
    requires rrtime > 0 && Agrees(t, vs, rrtime)
    ensures LoadOf(t.State()) == LoadOf(Rebuilt(false, vs, t.affinity, null, rrtime))
  {
    hide Booked, LoadOf;
    RebuiltFlag(t.harmonic, vs, t.affinity, null, rrtime);
    FlagIrrelevant(Rebuilt(false, vs, t.affinity, null, rrtime), t.State());
  }

  lemma OutcomeTried(tracers: seq<Tracer>, trc: Tracer?, found: Tracer?, ls: seq<Ledger>, ls': seq<Ledger>,
                     vs: seq<View>, vs': seq<View>, flags: seq<bool>, answers: Answers, rv: int, to: int, back: int,
                     rrtime: nat)
    requires rrtime > 0 && |ls| == |ls'| == |tracers|
    requires rv == 1 <==> found == null || found == trc
    requires rv == 1 ==> ls' == ls
    requires rv == -1 <==> rv != 1 && !AllAccepted(flags, answers)
    requires Outcome(vs, vs', flags, rv, to, back) && (found != null ==> to == MainCPU(found))
    requires rv != 1 && rv != -1 ==> (rv == 0 || rv == -2) && (trc != null ==> Agrees(trc, vs', rrtime))
    requires rv != 1 && rv != -1 ==> (rv == 0 <==> trc == null || LoadOf(trc.State()) <= 1.0)
    ensures Tried(tracers, trc, found, ls, ls', vs, vs', flags, answers, rv, rrtime)
  {
    hide Relocated, AllAccepted, LoadOf, MainCPU, Agrees, Rebuilt;
    if rv != 1 && rv != -1 && trc != null {
      AgreedLoad(trc, vs', rrtime);
    }
  }

  /** One move of the loop, from any state, and what it means from a settled one. */
  method TryMove(ntrc: Tracer?, trc: Tracer?, tracers: seq<Tracer>, tasks: seq<Task>, k: nat, rrtime: nat,
                 answers: Answers, ghost deadline: nat, ghost fx: Fixture)
    returns (rv: int)
    requires rrtime > 0 && Distinct(tasks) && k < |tasks| && AllConsistent(tracers)
    requires trc == TracerFor(tracers, tasks[k].assignedCPU) && (ntrc != null ==> ntrc in tracers)
    requires IsFixture(tasks, fx)
    requires tasks[k].pid >= 0 && (deadline == 0 || tasks[k].deadline < deadline)
    modifies tasks`assignedCPU, tasks`resched, tracers
    ensures IsFixture(tasks, fx) && AllConsistent(tracers)
    ensures MovedWith(tracers, old(Views(tasks)), Views(tasks), fx.groups, fx.conts, fx.dues,
                      old(tasks[k].assignedCPU), deadline)
    ensures Tried(tracers, trc, ntrc, old(LedgersOf(tracers)), LedgersOf(tracers), old(Views(tasks)), Views(tasks),
                  old(Flags(tasks, tasks[k])), answers, rv, rrtime)
    ensures rv == 1 ==> LedgersOf(tracers) == old(LedgersOf(tracers))
    ensures trc != null ==>
      if rv == 0 then Agrees(trc, Views(tasks), rrtime) && LoadOf(trc.State()) <= 1.0
      else if rv == -2 then Agrees(trc, Views(tasks), rrtime) && LoadOf(trc.State()) > 1.0
      else trc.State() == old(trc.State()) && OnlyTo(old(Views(tasks)), Views(tasks), MainCPU(trc))
    ensures trc != null && old(tasks[k].pid > 0 && Settled(tracers, Views(tasks), fx.groups, rrtime)) ==>
      && Settled(tracers, Views(tasks), fx.groups, rrtime)
      && OnlyLeft(old(Views(tasks)), Views(tasks), fx.groups, fx.dues, old(tasks[k].assignedCPU), deadline)
      && (rv == 0 || rv == -2 || Views(tasks) == old(Views(tasks)))
  {
    hide LoadOf, Consistent, Rebuilt, MainCPU, TracerFor, Sibling, Group, Task.Accounted, Relocated, Colocated;
    hide OnlyLeft, MovedWith, OnlyTo, Distinct, Outcome, Agrees, OneCPUEach, GroupOn, Tried, AllAccepted;
    hide AllConsistent, IsFixture;
    ghost var from := tasks[k].assignedCPU;
    ghost var vs, flags, ls := Views(tasks), Flags(tasks, tasks[k]), LedgersOf(tracers);
    ghost var settled := trc != null && tasks[k].pid > 0 && Settled(tracers, vs, fx.groups, rrtime);
    FixtureAt(tasks, fx, k, from, deadline, settled);
    if settled {
      OwnMainCPU(tracers, tasks[k].assignedCPU);
    }
    rv := MoveFor(ntrc, trc, tracers, tasks[k], tasks, rrtime, answers, fx);
    ghost var vs', to := Views(tasks), if ntrc == null then -1 else MainCPU(ntrc);
    ghost var back := if trc != null then MainCPU(trc) else to;
    AttemptOutcome(tracers, vs, vs', fx.groups, fx.conts, fx.dues, flags, k, from, deadline, rv, to, back);
    OutcomeTried(tracers, trc, ntrc, ls, LedgersOf(tracers), vs, vs', flags, answers, rv, to, back, rrtime);
    if settled {
      SettledOutcome(tracers, trc, ntrc, vs, vs', fx.groups, fx.dues, flags, k, deadline, rv, rrtime);
    }
  }

  /** What the fixture says about the task of an attempt. */
  lemma FixtureAt(tasks: seq<Task>, fx: Fixture, k: nat, cpu: int, deadline: nat, settled: bool)
    requires IsFixture(tasks, fx) && k < |tasks| && tasks[k].assignedCPU == cpu
    requires tasks[k].pid >= 0 && (deadline == 0 || tasks[k].deadline < deadline)
    requires settled ==> tasks[k].pid > 0 && Colocated(Views(tasks), fx.groups)
    ensures |fx.groups| == |fx.conts| == |fx.dues| == |tasks| && MayPick(Views(tasks)[k], fx.dues[k], cpu, deadline)
    ensures forall i :: 0 <= i < |tasks| && Flags(tasks, tasks[k])[i] ==>
      fx.groups[i] != null && fx.groups[i] == fx.conts[k]
    ensures forall i :: 0 <= i < |tasks| && fx.groups[i] != null ==> fx.conts[i] == fx.groups[i]
    ensures settled ==> GroupOn(Views(tasks), fx.groups, Flags(tasks, tasks[k]), fx.groups[k], cpu)
    ensures settled ==> Candidate(Views(tasks)[k], fx.dues[k], cpu, deadline)
  {
    hide Sibling, Group, Named, Task.Accounted;
    FlagsAreNamed(tasks, k);
    if settled {
      FlagsAreGroup(tasks, k);
    }
  }

  // ---------------------------------------------------------------------------------------
  // What the searches see
  // ---------------------------------------------------------------------------------------

  /** What a search for a task of `trc` sees: that tracer recomputed, without `skip`, the others as they are. */
  ghost function Seen(tracers: seq<Tracer>, ls: seq<Ledger>, trc: Tracer?, harmonic: bool, vs: seq<View>, skip: Task?,
                      rrtime: nat): (seen: seq<Ledger>)
    requires rrtime > 0 && |tracers| == |ls|
    ensures |seen| == |ls|
    ensures forall i :: 0 <= i < |ls| ==>
      seen[i] == if trc != null && tracers[i] == trc then Rebuilt(harmonic, vs, trc.affinity, skip, rrtime) else ls[i]
  {
    seq(|ls|, i requires 0 <= i < |ls| =>
      if trc != null && tracers[i] == trc then Rebuilt(harmonic, vs, trc.affinity, skip, rrtime) else ls[i])
  }

  /** All that the searches of the loop depend on, as it is at the start. */
  datatype Scene = Scene(
    tracers: seq<Tracer>, ls: seq<Ledger>, trc: Tracer?, harmonic: bool, vs: seq<View>, dues: seq<nat>,
    affinities: seq<int>, flags: seq<seq<bool>>, cpu: int, deadline: nat)
  {
    ghost predicate Fitting() {
      |ls| == |tracers| && |dues| == |affinities| == |flags| == |vs| && forall k :: 0 <= k < |vs| ==> |flags[k]| == |vs|
    }

    /** Attempt `a` is for this task; the second round starts at the length of the list. */
    function Index(a: nat): nat { if a < |vs| then a else a - |vs| }

    predicate Picks(a: nat)
      requires Fitting() && a < 2 * |vs|
    {
      MayPick(vs[Index(a)], dues[Index(a)], cpu, deadline)
    }

    /** The tracer the search of attempt `a` returns, if nothing was moved before: in the first round the task
        itself is left out of its tracer's account. */
    ghost function Finds(a: nat, rrtime: nat): Tracer?
      requires rrtime > 0 && Fitting() && a < 2 * |vs|
    {
      var v := vs[Index(a)];
      EffectivePeriodPositive(v.accounted, rrtime);
      if cpu < 0 then null
      else
        Sought(tracers, Seen(tracers, ls, trc, harmonic, vs, if a < |vs| then v.task else null, rrtime), v.accounted,
               affinities[Index(a)], cpu, rrtime)
    }

    /** Attempt `a` moves nothing: its task does not qualify, or finds no tracer other than its own. */
    ghost predicate Stays(a: nat, rrtime: nat)
      requires rrtime > 0 && Fitting() && a < 2 * |vs|
    {
      Picks(a) ==> Finds(a, rrtime) == null || Finds(a, rrtime) == trc
    }

    /** None of the first `n` attempts moves anything. */
    ghost predicate Quiet(n: nat, rrtime: nat)
      requires rrtime > 0 && Fitting()
    {
      forall a :: 0 <= a < n && a < 2 * |vs| ==> Stays(a, rrtime)
    }

    /** Attempt `a` is the first that finds another tracer. */
    ghost predicate First(a: nat, rrtime: nat)
      requires rrtime > 0 && Fitting()
    {
      a < 2 * |vs| && !Stays(a, rrtime) && Quiet(a, rrtime)
    }

    /** The list after attempt `a` has moved its container. */
    ghost function After(a: nat, rrtime: nat): seq<View>
      requires rrtime > 0 && Fitting() && First(a, rrtime)
    {
      Shifted(vs, flags[Index(a)], MainCPU(Finds(a, rrtime)))
    }

    /** Attempt `a` is accepted by the kernel and brings the CPU within capacity. */
    ghost predicate Succeeds(a: nat, answers: Answers, rrtime: nat)
      requires rrtime > 0 && Fitting() && First(a, rrtime)
    {
      && AllAccepted(flags[Index(a)], answers)
      && (trc == null || LoadOf(Rebuilt(false, After(a, rrtime), trc.affinity, null, rrtime)) <= 1.0)
    }
  }

  /** The list with the flagged entries on `cpu`. */
  ghost function Shifted(vs: seq<View>, flags: seq<bool>, cpu: int): (vs': seq<View>)
    requires |flags| == |vs|
    ensures Relocated(vs, vs', flags, |vs|, cpu)
  {
    seq(|vs|, i requires 0 <= i < |vs| => if flags[i] then vs[i].(cpu := cpu) else vs[i])
  }

  lemma ShiftedOnly(vs: seq<View>, vs': seq<View>, flags: seq<bool>, cpu: int)
    requires Relocated(vs, vs', flags, |vs|, cpu)
    ensures vs' == Shifted(vs, flags, cpu)
  {
  }

  ghost function Affinities(tasks: seq<Task>): (as': seq<int>)
    reads tasks`param
    ensures |as'| == |tasks| && forall i :: 0 <= i < |as'| ==> as'[i] == AffinityOf(tasks[i])
  {
    if tasks == [] then [] else Affinities(tasks[..|tasks|-1]) + [AffinityOf(tasks[|tasks|-1])]
  }

  /** The siblings of each of `nodes`. */
  ghost function AllFlags(tasks: seq<Task>, nodes: seq<Task>): (fs: seq<seq<bool>>)
    reads tasks`pid, tasks`param, nodes`param
    ensures |fs| == |nodes| && forall i :: 0 <= i < |fs| ==> fs[i] == Flags(tasks, nodes[i])
  {
    if nodes == [] then [] else AllFlags(tasks, nodes[..|nodes|-1]) + [Flags(tasks, nodes[|nodes|-1])]
  }

  ghost function SceneOf(tracers: seq<Tracer>, tasks: seq<Task>, cpu: int, deadline: nat): (s: Scene)
    reads tracers, tasks`pid, tasks`assignedCPU, tasks`attr, tasks`cdfRuntime, tasks`cdfPeriod, tasks`deadline
    reads tasks`param
    ensures s.Fitting()
  {
    var trc := TracerFor(tracers, cpu);
    Scene(tracers, LedgersOf(tracers), trc, trc != null && trc.harmonic, Views(tasks), Dues(tasks), Affinities(tasks),
          AllFlags(tasks, tasks), cpu, deadline)
  }

  ghost function Cpus(tasks: seq<Task>): (cs: seq<int>)
    reads tasks`assignedCPU
    ensures |cs| == |tasks| && forall i :: 0 <= i < |cs| ==> cs[i] == tasks[i].assignedCPU
  {
    if tasks == [] then [] else Cpus(tasks[..|tasks|-1]) + [tasks[|tasks|-1].assignedCPU]
  }

  /** The task list as the accounting sees it if the tasks are on these CPUs. */
  ghost function ViewsOn(tasks: seq<Task>, cpus: seq<int>): (vs: seq<View>)
    requires |tasks| == |cpus|
    reads tasks`pid, tasks`attr, tasks`cdfRuntime, tasks`cdfPeriod
    ensures |vs| == |tasks|
    ensures forall i :: 0 <= i < |vs| ==> vs[i] == View(tasks[i], tasks[i].pid, cpus[i], tasks[i].Accounted())
  {
    if tasks == [] then []
    else
      var n := |tasks| - 1;
      ViewsOn(tasks[..n], cpus[..n]) + [View(tasks[n], tasks[n].pid, cpus[n], tasks[n].Accounted())]
  }

  /** The scene as it was when the tasks were on these CPUs and the ledgers were `ls`. */
  ghost function SceneWith(tracers: seq<Tracer>, ls: seq<Ledger>, harmonic: bool, tasks: seq<Task>, cpus: seq<int>,
                           cpu: int, deadline: nat): (s: Scene)
    requires |tracers| == |ls| && |tasks| == |cpus|
    reads tasks`pid, tasks`attr, tasks`cdfRuntime, tasks`cdfPeriod, tasks`deadline, tasks`param
    ensures s.Fitting()
  {
    Scene(tracers, ls, TracerFor(tracers, cpu), harmonic, ViewsOn(tasks, cpus), Dues(tasks), Affinities(tasks),
          AllFlags(tasks, tasks), cpu, deadline)
  }

  ghost predicate HarmonicFor(tracers: seq<Tracer>, cpu: int)
    reads tracers
  {
    TracerFor(tracers, cpu) != null && TracerFor(tracers, cpu).harmonic
  }

  lemma SceneNow(tracers: seq<Tracer>, tasks: seq<Task>, cpu: int, deadline: nat)
    ensures SceneOf(tracers, tasks, cpu, deadline)
         == SceneWith(tracers, LedgersOf(tracers), HarmonicFor(tracers, cpu), tasks, Cpus(tasks), cpu, deadline)
  {
    hide Task.Accounted, Sibling, AffinityOf;
    assert Views(tasks) == ViewsOn(tasks, Cpus(tasks));
  }

  lemma RebuiltConsistent(harmonic: bool, vs: seq<View>, mask: Bitmask, skip: Task?, rrtime: nat)
    requires rrtime > 0
    ensures Consistent(Rebuilt(harmonic, vs, mask, skip, rrtime))
  {
    var attrs := CountedAttrs(vs, mask, skip);
    ChargeableAll(attrs, rrtime);
    NothingBooked(rrtime);
    BookedLoad(Empty(false), attrs, rrtime);
    FlagIrrelevant(Booked(Empty(false), attrs, rrtime), Rebuilt(harmonic, vs, mask, skip, rrtime));
  }

  /** Why an attempt for a flexible task moves nothing: every tracer rejects the task, or its own one takes it
      with a score that no other beats. */
  lemma NowhereBetter(s: Scene, a: nat, i: nat, rrtime: nat)
    requires rrtime > 0 && s.Fitting() && a < 2 * |s.vs| && s.Picks(a) && s.Stays(a, rrtime) && s.cpu >= 0
    requires s.affinities[s.Index(a)] < 0 && i < |s.tracers| && forall k :: 0 <= k < |s.ls| ==> Consistent(s.ls[k])
    ensures var attr := s.vs[s.Index(a)].accounted;
      var skip := if a < |s.vs| then s.vs[s.Index(a)].task else null;
      var seen := Seen(s.tracers, s.ls, s.trc, s.harmonic, s.vs, skip, rrtime);
      && EffectivePeriod(attr, rrtime) > 0
      && (Score(seen[i], attr, rrtime) < 0
          || exists p :: 0 <= p < |s.tracers| && s.tracers[p] == s.trc
                         && 0 <= Score(seen[p], attr, rrtime) <= Score(seen[i], attr, rrtime))
  {
    hide Score, Rebuilt, Consistent, Picked;
    var attr := s.vs[s.Index(a)].accounted;
    var skip := if a < |s.vs| then s.vs[s.Index(a)].task else null;
    var seen := Seen(s.tracers, s.ls, s.trc, s.harmonic, s.vs, skip, rrtime);
    EffectivePeriodPositive(attr, rrtime);
    forall k | 0 <= k < |seen| ensures Consistent(seen[k]) {
      if s.trc != null {
        RebuiltConsistent(s.harmonic, s.vs, s.trc.affinity, skip, rrtime);
      }
    }
    var scores := Scores(seen, attr, rrtime);
    ScoresPlausible(seen, attr, rrtime);
    PickedIsBest(s.tracers, seen, scores, s.affinities[s.Index(a)], s.cpu, |s.tracers|);
    assert scores[i] == Score(seen[i], attr, rrtime);
    var p := Picked(s.tracers, seen, scores, s.affinities[s.Index(a)], s.cpu, |s.tracers|);
    if p >= 0 {
      assert scores[p] == Score(seen[p], attr, rrtime);
    }
  }

  /** What a search for a task returns in the current state. */
  ghost function Looked(tracers: seq<Tracer>, tasks: seq<Task>, item: Task, withItem: bool, rrtime: nat): Tracer?
    requires rrtime > 0
    reads tracers, tasks, item, Hiding(tracers, item, withItem)
  {
    EffectivePeriodPositive(item.Accounted(), rrtime);
    if item.assignedCPU < 0 then null
    else
      Sought(tracers, SearchedLedgers(tracers, Hiding(tracers, item, withItem), tasks, item, rrtime), item.Accounted(),
             AffinityOf(item), item.assignedCPU, rrtime)
  }

  /** The search of one attempt: recomputes at most the item's tracer, so it changes nothing that agrees. */
  method FindOther(tracers: seq<Tracer>, tasks: seq<Task>, item: Task, withItem: bool, rrtime: nat, ghost fx: Fixture)
    returns (ntrc: Tracer?)
    requires rrtime > 0 && AllConsistent(tracers)
    modifies tracers
    requires IsFixture(tasks, fx)
    ensures Views(tasks) == old(Views(tasks)) && IsFixture(tasks, fx) && AllConsistent(tracers)
    ensures Flags(tasks, item) == old(Flags(tasks, item))
    ensures ntrc != null ==> ntrc in tracers
    ensures ntrc == old(Looked(tracers, tasks, item, withItem, rrtime))
    ensures forall t :: t in tracers ==>
      t.State() == if !withItem && item.assignedCPU >= 0 && t == TracerFor(tracers, item.assignedCPU)
                   then Rebuilt(old(t.harmonic), Views(tasks), t.affinity, null, rrtime) else old(t.State())
    ensures old(Settled(tracers, Views(tasks), fx.groups, rrtime)) ==>
      Settled(tracers, Views(tasks), fx.groups, rrtime)
      && forall t :: t in tracers ==> t.State() == old(t.State())
  {
    hide LoadOf, Consistent, Rebuilt, Group, Task.Accounted, SearchResult, SearchedLedgers, EffectivePeriod, MainCPU;
    hide Sought, OneCPUEach, Colocated, Sibling, IsFixture;
    ghost var vs := Views(tasks);
    ghost var settled := Settled(tracers, vs, fx.groups, rrtime);
    ntrc := CheckPeriodR(tracers, tasks, item, withItem, rrtime);
    assert Views(tasks) == vs;
    if settled {
      forall t | t in tracers ensures Agrees(t, vs, rrtime) {
        assert t.State() == old(t.State());
      }
    }
  }

  /** What the loop has done so far, in any state: it only moved threads along with tasks it may have picked,
      and unless the tracer is still full they are back on its CPU. */
  ghost predicate Trying(trc: Tracer?, tracers: seq<Tracer>, tasks: seq<Task>, before: seq<View>, fx: Fixture,
                         cpu: int, deadline: nat, rrtime: nat)
    requires rrtime > 0
    reads trc, tasks
  {
    && MovedWith(tracers, before, Views(tasks), fx.groups, fx.conts, fx.dues, cpu, deadline)
    && (trc != null ==>
          Full(trc.State(), trc.affinity, Views(tasks), rrtime) || OnlyTo(before, Views(tasks), MainCPU(trc)))
  }

  /** In a settled state: it stays settled, tasks only left the CPU, and if any did the CPU is still overloaded. */
  ghost predicate Relieving(tracers: seq<Tracer>, trc: Tracer?, tasks: seq<Task>, before: seq<View>,
                            fx: Fixture, cpu: int, deadline: nat, rrtime: nat)
    requires rrtime > 0
    reads tracers, trc, tasks
  {
    && Settled(tracers, Views(tasks), fx.groups, rrtime) && trc != null && trc in tracers
    && OnlyLeft(before, Views(tasks), fx.groups, fx.dues, cpu, deadline)
    && (Views(tasks) == before || LoadOf(trc.State()) > 1.0)
  }

  /** The ledgers of the others are those of the scene, and `trc` was recomputed if `fresh'` says so. */
  ghost predicate Calm(s: Scene, tasks: seq<Task>, recomputed: bool, rrtime: nat)
    requires rrtime > 0
    reads tasks, s.tracers, s.trc
  {
    && s.Fitting() && Views(tasks) == s.vs && s.trc == TracerFor(s.tracers, s.cpu)
    && (forall i :: 0 <= i < |s.tracers| && s.tracers[i] != s.trc ==> LedgersOf(s.tracers)[i] == s.ls[i])
    && (s.trc != null ==> s.trc.harmonic == s.harmonic && (recomputed ==> Agrees(s.trc, s.vs, rrtime)))
  }

  /** In a calm state a search returns what the scene says. */
  lemma LookedFinds(s: Scene, tasks: seq<Task>, k: nat, withItem: bool, rrtime: nat)
    requires rrtime > 0 && Calm(s, tasks, withItem, rrtime) && k < |tasks| && tasks[k].assignedCPU == s.cpu
    requires s.affinities[k] == AffinityOf(tasks[k])
    ensures Looked(s.tracers, tasks, tasks[k], withItem, rrtime) == s.Finds(if withItem then |s.vs| + k else k, rrtime)
  {
    hide Sought, Rebuilt, Task.Accounted, EffectivePeriod;
    var item, trc := tasks[k], s.trc;
    EffectivePeriodPositive(item.Accounted(), rrtime);
    assert s.vs[k] == ViewOf(item);
    if s.cpu >= 0 {
      var searched := SearchedLedgers(s.tracers, Hiding(s.tracers, item, withItem), tasks, item, rrtime);
      var seen := Seen(s.tracers, s.ls, trc, s.harmonic, s.vs, if withItem then null else item, rrtime);
      forall i | 0 <= i < |s.tracers| ensures searched[i] == seen[i] {
        assert LedgersOf(s.tracers)[i] == s.tracers[i].State();
      }
      assert searched == seen;
    }
  }

  lemma TriedFromSearch(tracers: seq<Tracer>, trc: Tracer?, found: Tracer?, ls: seq<Ledger>, ls': seq<Ledger>,
                        ls'': seq<Ledger>, vs: seq<View>, vs': seq<View>, flags: seq<bool>, answers: Answers, rv: int,
                        rrtime: nat)
    requires rrtime > 0 && |ls| == |ls'| && Tried(tracers, trc, found, ls', ls'', vs, vs', flags, answers, rv, rrtime)
    requires forall i :: 0 <= i < |tracers| && tracers[i] != trc ==> ls'[i] == ls[i]
    ensures Tried(tracers, trc, found, ls, ls'', vs, vs', flags, answers, rv, rrtime)
  {
    hide Relocated, AllAccepted, LoadOf, MainCPU, Rebuilt;
  }

  lemma FullNow(t: Tracer, vs: seq<View>, rrtime: nat)
    requires rrtime > 0 && Agrees(t, vs, rrtime) && LoadOf(t.State()) > 1.0
    ensures Full(t.State(), t.affinity, vs, rrtime)
  {
    hide LoadOf, Rebuilt;
  }

  lemma NoReliefOf(l: Ledger, l': Ledger, l'': Ledger, mask: Bitmask, vs: seq<View>, vs': seq<View>, cpu: int,
                   rrtime: nat)
    requires rrtime > 0 && (l' == l || l' == Rebuilt(l.harmonic, vs, mask, null, rrtime))
    requires Full(l'', mask, vs', rrtime) || (l'' == l' && OnlyTo(vs, vs', cpu))
    ensures NoRelief(l, l'', mask, vs, vs', cpu, rrtime)
  {
    hide Full, OnlyTo, Rebuilt;
  }

  /** One round of the loop for one task that qualifies: the search and the move. */
  method Attempt(trc: Tracer?, tracers: seq<Tracer>, tasks: seq<Task>, k: nat, withItem: bool, rrtime: nat,
                 answers: Answers, ghost deadline: nat, ghost fx: Fixture)
    returns (rv: int, ghost found: Tracer?)
    requires rrtime > 0 && Distinct(tasks) && k < |tasks| && AllConsistent(tracers)
    requires trc == TracerFor(tracers, tasks[k].assignedCPU) && IsFixture(tasks, fx)
    requires tasks[k].pid >= 0 && (deadline == 0 || tasks[k].deadline < deadline)
    modifies tasks`assignedCPU, tasks`resched, tracers
    ensures IsFixture(tasks, fx) && AllConsistent(tracers)
    ensures MovedWith(tracers, old(Views(tasks)), Views(tasks), fx.groups, fx.conts, fx.dues,
                      old(tasks[k].assignedCPU), deadline)
    // the search decides whether anything moves, the answers whether it stays moved
    ensures found == old(Looked(tracers, tasks, tasks[k], withItem, rrtime))
    ensures Tried(tracers, trc, found, old(LedgersOf(tracers)), LedgersOf(tracers), old(Views(tasks)), Views(tasks),
                  old(Flags(tasks, tasks[k])), answers, rv, rrtime)
    ensures rv == 1 && trc != null ==>
      trc.State() == if withItem || old(tasks[k].assignedCPU) < 0 then old(trc.State())
                     else Rebuilt(old(trc.harmonic), old(Views(tasks)), trc.affinity, null, rrtime)
    ensures rv == 0 && trc != null ==> LoadOf(trc.State()) <= 1.0 && Agrees(trc, Views(tasks), rrtime)
    ensures rv == -2 && trc != null ==> Full(trc.State(), trc.affinity, Views(tasks), rrtime)
    ensures rv != 0 && trc != null ==>
      NoRelief(old(trc.State()), trc.State(), trc.affinity, old(Views(tasks)), Views(tasks), MainCPU(trc), rrtime)
    ensures trc != null && old(tasks[k].pid > 0 && Settled(tracers, Views(tasks), fx.groups, rrtime)) ==>
      && Settled(tracers, Views(tasks), fx.groups, rrtime)
      && OnlyLeft(old(Views(tasks)), Views(tasks), fx.groups, fx.dues, old(tasks[k].assignedCPU), deadline)
      && (rv == 0 || LoadOf(trc.State()) > 1.0
          || (Views(tasks) == old(Views(tasks)) && trc.State() == old(trc.State())))
  {
    hide LoadOf, Consistent, Rebuilt, Group, Task.Accounted, OneCPUEach, Colocated, TracerFor, OnlyLeft;
    hide MovedWith, OnlyTo, MainCPU, Tried, Looked, AllAccepted, Distinct, Full, NoRelief, Settled, Agrees;
    hide AllConsistent, IsFixture;
    ghost var l := if trc == null then Empty(false) else trc.State();
    ghost var vs, flags, ls := Views(tasks), Flags(tasks, tasks[k]), LedgersOf(tracers);
    var ntrc := FindOther(tracers, tasks, tasks[k], withItem, rrtime, fx);
    found := ntrc;
    ghost var ls', l' := LedgersOf(tracers), if trc == null then l else trc.State();
    rv := TryMove(ntrc, trc, tracers, tasks, k, rrtime, answers, deadline, fx);
    TriedFromSearch(tracers, trc, found, ls, ls', LedgersOf(tracers), vs, Views(tasks), flags, answers, rv, rrtime);
    if trc != null && rv != 0 {
      if rv == -2 {
        FullNow(trc, Views(tasks), rrtime);
      }
      NoReliefOf(l, l', trc.State(), trc.affinity, vs, Views(tasks), MainCPU(trc), rrtime);
    }
  }

  /** The same, seen from the start of the loop. */
  method AttemptFrom(trc: Tracer?, tracers: seq<Tracer>, tasks: seq<Task>, k: nat, withItem: bool, cpu: int,
                     deadline: nat, rrtime: nat, answers: Answers, ghost settled: bool, ghost before: seq<View>,
                     ghost fx: Fixture)
    returns (rv: int, ghost found: Tracer?)
    requires rrtime > 0 && Distinct(tasks) && k < |tasks| && AllConsistent(tracers) && trc == TracerFor(tracers, cpu)
    requires tasks[k].assignedCPU == cpu && tasks[k].pid >= 0 && (deadline == 0 || tasks[k].deadline < deadline)
    requires IsFixture(tasks, fx) && Trying(trc, tracers, tasks, before, fx, cpu, deadline, rrtime)
    requires settled ==> Relieving(tracers, trc, tasks, before, fx, cpu, deadline, rrtime)
    modifies tasks`assignedCPU, tasks`resched, tracers
    ensures IsFixture(tasks, fx) && AllConsistent(tracers)
    ensures rv != 0 ==> Trying(trc, tracers, tasks, before, fx, cpu, deadline, rrtime)
    ensures rv == 0 ==> MovedWith(tracers, before, Views(tasks), fx.groups, fx.conts, fx.dues, cpu, deadline)
    ensures found == old(Looked(tracers, tasks, tasks[k], withItem, rrtime))
    ensures Tried(tracers, trc, found, old(LedgersOf(tracers)), LedgersOf(tracers), old(Views(tasks)), Views(tasks),
                  old(Flags(tasks, tasks[k])), answers, rv, rrtime)
    ensures rv == 1 && trc != null ==>
      trc.State() == if withItem || cpu < 0 then old(trc.State())
                     else Rebuilt(old(trc.harmonic), old(Views(tasks)), trc.affinity, null, rrtime)
    ensures rv == 0 && trc != null ==> LoadOf(trc.State()) <= 1.0 && Agrees(trc, Views(tasks), rrtime)
    ensures rv == -2 && trc != null ==> Full(trc.State(), trc.affinity, Views(tasks), rrtime)
    ensures rv != 0 && trc != null && old(Full(trc.State(), trc.affinity, Views(tasks), rrtime)) ==>
      Full(trc.State(), trc.affinity, Views(tasks), rrtime)
    ensures settled && rv != 0 ==> Relieving(tracers, trc, tasks, before, fx, cpu, deadline, rrtime)
    ensures settled && rv == 0 ==> Settled(tracers, Views(tasks), fx.groups, rrtime)
    ensures settled && rv == 0 ==> OnlyLeft(before, Views(tasks), fx.groups, fx.dues, cpu, deadline)
  {
    hide LoadOf, Consistent, Rebuilt, Group, Task.Accounted, AllAgree, OneCPUEach, Colocated, TracerFor, OnlyLeft;
    hide MovedWith, OnlyTo, MainCPU, NoRelief, Full, Agrees, AllConsistent, IsFixture, Tried, Looked, AllAccepted;
    hide Distinct;
    ghost var vs := Views(tasks);
    ghost var l := if trc == null then Empty(false) else trc.State();
    FixtureAt(tasks, fx, k, cpu, deadline, false);
    assert vs[k] in vs;
    rv, found := Attempt(trc, tracers, tasks, k, withItem, rrtime, answers, deadline, fx);
    MovedTwice(tracers, before, vs, Views(tasks), fx.groups, fx.conts, fx.dues, cpu, deadline);
    if trc != null && rv != 0 {
      OwnMainSet(tracers, cpu);
      StillNoRelief(before, l, trc.State(), trc.affinity, vs, Views(tasks), MainCPU(trc), rrtime);
      StillFull(l, trc.State(), trc.affinity, vs, Views(tasks), MainCPU(trc), rrtime);
    }
    if settled {
      LeftTwice(before, vs, Views(tasks), fx.groups, fx.dues, cpu, deadline);
    }
  }

  /** A full tracer is full after an attempt that did not help. */
  lemma StillFull(l: Ledger, l': Ledger, mask: Bitmask, vs: seq<View>, vs': seq<View>, cpu: int, rrtime: nat)
    requires rrtime > 0 && NoRelief(l, l', mask, vs, vs', cpu, rrtime) && IsBitSet(mask, cpu)
    ensures Full(l, mask, vs, rrtime) ==> Full(l', mask, vs', rrtime)
  {
    hide LoadOf, Booked;
    if Full(l, mask, vs, rrtime) && !Full(l', mask, vs', rrtime) {
      RebuiltTwice(l.harmonic, vs, mask, rrtime);
      StaysFull(l', mask, vs, vs', cpu, rrtime);
    }
  }

  lemma OwnMainSet(tracers: seq<Tracer>, cpu: int)
    requires TracerFor(tracers, cpu) != null
    ensures IsBitSet(TracerFor(tracers, cpu).affinity, MainCPU(TracerFor(tracers, cpu)))
  {
  }

  /** The kernel refuses no live thread of a container in the first `n` attempts. */
  ghost predicate NoRefusal(answers: nat -> Answers, groups: seq<Container?>, n: nat) {
    forall a, i :: 0 <= a < n && 0 <= i < |groups| && groups[i] != null ==> answers(a)(i)
  }

  /** Whether any of the first `n` attempts is for a task that qualifies. */
  ghost predicate AnyPicked(s: Scene, n: nat)
    requires s.Fitting()
  {
    exists a :: 0 <= a < n && a < 2 * |s.vs| && s.Picks(a)
  }

  /** Where the loop stands before attempt `a`: nothing has been moved, because no attempt found another tracer;
      or attempt `first` was the first that did, and it did not succeed. */
  ghost predicate Searching(s: Scene, tasks: seq<Task>, a: nat, first: int, answers: nat -> Answers,
                            fx: Fixture, rrtime: nat)
    requires rrtime > 0
    reads tasks, s.tracers, s.trc
  {
    && s.Fitting() && |s.vs| == |tasks|
    && if first < 0 then s.Quiet(a, rrtime) && Calm(s, tasks, AnyPicked(s, a), rrtime)
       else
         && first < a && s.First(first, rrtime) && !s.Succeeds(first, answers(first), rrtime)
         && (NoRefusal(answers, fx.groups, 2 * |s.vs|) ==>
               s.trc != null && Full(s.trc.State(), s.trc.affinity, Views(tasks), rrtime))
  }

  /** The scene still shows deadlines, preferences and siblings. */
  ghost predicate Staged(s: Scene, tasks: seq<Task>)
    reads tasks`pid, tasks`param, tasks`deadline
  {
    s.Fitting() && s.dues == Dues(tasks) && s.affinities == Affinities(tasks) && s.flags == AllFlags(tasks, tasks)
  }

  /** What the first attempt that found another tracer leaves, from the state at the start. */
  lemma FirstMove(s: Scene, a: nat, found: Tracer?, ls': seq<Ledger>, vs': seq<View>, answers: Answers, rv: int,
                  rrtime: nat)
    requires rrtime > 0 && s.Fitting() && a < 2 * |s.vs| && s.Picks(a) && s.Quiet(a, rrtime)
    requires found == s.Finds(a, rrtime)
    requires Tried(s.tracers, s.trc, found, s.ls, ls', s.vs, vs', s.flags[s.Index(a)], answers, rv, rrtime)
    ensures rv == 1 ==> s.Quiet(a + 1, rrtime)
    ensures rv != 1 ==> s.First(a, rrtime)
    ensures rv == 0 ==> s.Succeeds(a, answers, rrtime) && vs' == s.After(a, rrtime)
    ensures rv != 0 && rv != 1 ==> !s.Succeeds(a, answers, rrtime)
    ensures rv == -1 ==> !AllAccepted(s.flags[s.Index(a)], answers)
    ensures rv == 0 || rv == 1 || rv == -1 || (rv == -2 && s.trc != null)
  {
    hide LoadOf, Rebuilt, MainCPU, AllAccepted, Sought, Relocated;
    if rv == 0 || rv == -2 {
      ShiftedOnly(s.vs, vs', s.flags[s.Index(a)], MainCPU(found));
    }
  }

  /** Without any refusal every container is accepted. */
  lemma NoRefusalAccepts(tasks: seq<Task>, node: Task, fx: Fixture, answers: nat -> Answers, a: nat, n: nat)
    requires IsFixture(tasks, fx) && NoRefusal(answers, fx.groups, n) && a < n
    ensures AllAccepted(Flags(tasks, node), answers(a))
  {
    hide Named;
    forall i | 0 <= i < |tasks| && Flags(tasks, node)[i] ensures answers(a)(i) {
      assert fx.groups[i] != null;
    }
  }

  /** The number of the attempt for task `k` in one of the two rounds over `n` tasks. */
  function AttemptOf(n: nat, k: nat, withItem: bool): nat { if withItem then n + k else k }

  /** While nothing has been moved, a task that qualifies is picked in the scene too. */
  lemma CalmPicks(s: Scene, tasks: seq<Task>, k: nat, withItem: bool)
    requires s.Fitting() && Staged(s, tasks) && k < |tasks| && tasks[k].assignedCPU == s.cpu && Views(tasks) == s.vs
    requires tasks[k].pid >= 0 && (s.deadline == 0 || tasks[k].deadline < s.deadline)
    ensures var a := AttemptOf(|tasks|, k, withItem);
      && |s.vs| == |tasks| && a < 2 * |tasks| && s.Index(a) == k && s.Picks(a) && (withItem ==> AnyPicked(s, a))
    ensures s.flags[k] == Flags(tasks, tasks[k]) && s.affinities[k] == AffinityOf(tasks[k])
  {
    hide Sibling, Task.Accounted;
    assert s.vs[k] == ViewOf(tasks[k]);
    assert s.Picks(k);
  }

  /** Before an attempt while nothing has been moved: its search returns what the scene says. */
  lemma CalmSearch(s: Scene, tasks: seq<Task>, k: nat, withItem: bool, rrtime: nat)
    requires rrtime > 0 && s.Fitting() && k < |tasks| && tasks[k].assignedCPU == s.cpu
    requires |s.vs| == |tasks| && s.affinities[k] == AffinityOf(tasks[k])
    requires Calm(s, tasks, AnyPicked(s, AttemptOf(|tasks|, k, withItem)), rrtime)
    requires withItem ==> AnyPicked(s, AttemptOf(|tasks|, k, withItem))
    ensures Looked(s.tracers, tasks, tasks[k], withItem, rrtime) == s.Finds(AttemptOf(|tasks|, k, withItem), rrtime)
  {
    hide Looked, Agrees, Task.Accounted, AnyPicked, Sought, Scene.Finds;
    LookedFinds(s, tasks, k, withItem, rrtime);
  }

  /** An attempt that found nothing leaves the state calm, and the tracer recomputed. */
  lemma CalmOn(s: Scene, tasks: seq<Task>, a: nat, ls: seq<Ledger>, withItem: bool, l: Ledger, rrtime: nat)
    requires rrtime > 0 && s.Fitting() && a < 2 * |s.vs| && s.Picks(a) && s.trc == TracerFor(s.tracers, s.cpu)
    requires Views(tasks) == s.vs && |ls| == |s.tracers|
    requires forall i :: 0 <= i < |s.tracers| && s.tracers[i] != s.trc ==>
      ls[i] == s.ls[i] && LedgersOf(s.tracers)[i] == ls[i]
    requires s.trc != null ==> l.harmonic == s.harmonic
    requires s.trc != null ==>
      s.trc.State() == if withItem || s.cpu < 0 then l else Rebuilt(l.harmonic, s.vs, s.trc.affinity, null, rrtime)
    requires s.trc != null && withItem ==> l == Rebuilt(s.harmonic, s.vs, s.trc.affinity, null, rrtime)
    ensures Calm(s, tasks, AnyPicked(s, a + 1), rrtime)
  {
    hide Rebuilt, Task.Accounted;
    if s.trc != null {
      RebuiltTwice(l.harmonic, s.vs, s.trc.affinity, rrtime);
    }
  }

  /** What the state of the search says, case by case. */
  lemma SearchSays(s: Scene, tasks: seq<Task>, a: nat, first: int, answers: nat -> Answers, fx: Fixture, rrtime: nat)
    requires rrtime > 0 && Searching(s, tasks, a, first, answers, fx, rrtime)
    ensures s.Fitting() && |s.vs| == |tasks|
    ensures first < 0 ==> s.Quiet(a, rrtime) && Calm(s, tasks, AnyPicked(s, a), rrtime) && Views(tasks) == s.vs
    ensures first < 0 ==> forall i :: 0 <= i < |s.tracers| && s.tracers[i] != s.trc ==>
      LedgersOf(s.tracers)[i] == s.ls[i]
    ensures first < 0 && s.trc != null ==>
      s.trc.harmonic == s.harmonic
      && (AnyPicked(s, a) ==> s.trc.State() == Rebuilt(s.harmonic, s.vs, s.trc.affinity, null, rrtime))
    ensures first >= 0 ==> first < a && s.First(first, rrtime) && !s.Succeeds(first, answers(first), rrtime)
    ensures first >= 0 && NoRefusal(answers, fx.groups, 2 * |s.vs|) ==>
      s.trc != null && Full(s.trc.State(), s.trc.affinity, Views(tasks), rrtime)
  {
    hide Scene.Quiet, Scene.First, Scene.Succeeds, AnyPicked, Rebuilt, Full, NoRefusal;
  }

  /** The search goes on after an attempt that did not help. */
  lemma SearchOn(s: Scene, tasks: seq<Task>, a: nat, first: int, answers: nat -> Answers, fx: Fixture, rrtime: nat)
    requires rrtime > 0 && s.Fitting() && |s.vs| == |tasks|
    requires first < 0 ==> s.Quiet(a, rrtime) && Calm(s, tasks, AnyPicked(s, a), rrtime)
    requires first >= 0 ==> first < a && s.First(first, rrtime) && !s.Succeeds(first, answers(first), rrtime)
    requires first >= 0 && NoRefusal(answers, fx.groups, 2 * |s.vs|) ==>
      s.trc != null && Full(s.trc.State(), s.trc.affinity, Views(tasks), rrtime)
    ensures Searching(s, tasks, a, first, answers, fx, rrtime)
  {
    hide Scene.Quiet, Scene.First, Scene.Succeeds, AnyPicked, Full, NoRefusal, Calm;
  }

  lemma StillThere(tracers: seq<Tracer>, trc: Tracer?, found: Tracer?, ls: seq<Ledger>, ls': seq<Ledger>,
                   vs: seq<View>, vs': seq<View>, flags: seq<bool>, answers: Answers, rrtime: nat)
    requires rrtime > 0 && Tried(tracers, trc, found, ls, ls', vs, vs', flags, answers, 1, rrtime)
    ensures |ls| == |ls'| == |tracers| && vs' == vs
    ensures forall i :: 0 <= i < |tracers| && tracers[i] != trc ==> ls'[i] == ls[i]
  {
  }

  /** The first move does not fail for a refusal if there is none. */
  lemma FirstFails(s: Scene, tasks: seq<Task>, k: nat, a: nat, answers: nat -> Answers, fx: Fixture, rv: int,
                   rrtime: nat)
    requires IsFixture(tasks, fx) && k < |tasks| && a < 2 * |tasks| && |s.vs| == |tasks|
    requires rv == -1 ==> !AllAccepted(Flags(tasks, tasks[k]), answers(a))
    ensures NoRefusal(answers, fx.groups, 2 * |s.vs|) ==> rv != -1
  {
    hide AllAccepted;
    if NoRefusal(answers, fx.groups, 2 * |s.vs|) {
      NoRefusalAccepts(tasks, tasks[k], fx, answers, a, 2 * |s.vs|);
    }
  }

  /** What is known before attempt `a`, as values: nothing was moved and the ledgers are `ls`, that of `trc` being
      `l`; or attempt `first` did not succeed. */
  ghost predicate Ready(s: Scene, k: nat, withItem: bool, first: int, ls: seq<Ledger>, l: Ledger, looked: Tracer?,
                        flags: seq<bool>, answers: nat -> Answers, full: bool, rrtime: nat)
    requires rrtime > 0
  {
    var a := AttemptOf(|s.vs|, k, withItem);
    && s.Fitting() && k < |s.vs|
    && if first < 0 then
         && s.Quiet(a, rrtime) && s.Picks(a) && looked == s.Finds(a, rrtime) && flags == s.flags[k]
         && |ls| == |s.tracers| && (forall i :: 0 <= i < |ls| && s.tracers[i] != s.trc ==> ls[i] == s.ls[i])
         && (s.trc != null ==>
              l.harmonic == s.harmonic
              && (withItem ==> l == Rebuilt(s.harmonic, s.vs, s.trc.affinity, null, rrtime)))
       else first < a && s.First(first, rrtime) && !s.Succeeds(first, answers(first), rrtime) && full
  }

  lemma GetReady(s: Scene, tasks: seq<Task>, k: nat, withItem: bool, first: int, answers: nat -> Answers, fx: Fixture,
                 rrtime: nat)
    requires rrtime > 0 && Searching(s, tasks, AttemptOf(|tasks|, k, withItem), first, answers, fx, rrtime)
    requires Staged(s, tasks) && k < |tasks| && tasks[k].assignedCPU == s.cpu
    requires tasks[k].pid >= 0 && (s.deadline == 0 || tasks[k].deadline < s.deadline)
    ensures |s.vs| == |tasks| && (first < 0 ==> Views(tasks) == s.vs)
    ensures Ready(s, k, withItem, first, LedgersOf(s.tracers), if s.trc == null then Empty(false) else s.trc.State(),
                  Looked(s.tracers, tasks, tasks[k], withItem, rrtime), Flags(tasks, tasks[k]), answers,
                  NoRefusal(answers, fx.groups, 2 * |s.vs|) ==>
                    s.trc != null && Full(s.trc.State(), s.trc.affinity, Views(tasks), rrtime),
                  rrtime)
  {
    hide Scene.Quiet, Scene.First, Scene.Succeeds, Scene.Finds, Scene.Picks, Looked, Full, NoRefusal, Rebuilt, Staged;
    hide Searching, Calm, AnyPicked, Sibling, Task.Accounted;
    SearchSays(s, tasks, AttemptOf(|tasks|, k, withItem), first, answers, fx, rrtime);
    if first < 0 {
      CalmPicks(s, tasks, k, withItem);
      CalmSearch(s, tasks, k, withItem, rrtime);
    }
  }

  /** The search after an attempt, from what was known before it. */
  lemma SearchStep(s: Scene, tasks: seq<Task>, k: nat, withItem: bool, first: int, ls: seq<Ledger>, l: Ledger,
                   found: Tracer?, flags: seq<bool>, answers: nat -> Answers, full: bool, fx: Fixture, vs: seq<View>,
                   rv: int, rrtime: nat)
    returns (first': int)
    requires rrtime > 0 && |s.vs| == |tasks| && s.trc == TracerFor(s.tracers, s.cpu) && IsFixture(tasks, fx)
    requires Ready(s, k, withItem, first, ls, l, found, flags, answers, full, rrtime) && (first < 0 ==> vs == s.vs)
    requires k < |tasks| && flags == Flags(tasks, tasks[k])
    requires Tried(s.tracers, s.trc, found, ls, LedgersOf(s.tracers), vs, Views(tasks), flags,
                   answers(AttemptOf(|tasks|, k, withItem)), rv, rrtime)
    requires rv == 1 && s.trc != null ==>
      s.trc.State() == if withItem || s.cpu < 0 then l else Rebuilt(l.harmonic, vs, s.trc.affinity, null, rrtime)
    requires rv == -2 && s.trc != null ==> Full(s.trc.State(), s.trc.affinity, Views(tasks), rrtime)
    requires rv != 0 && first >= 0 && full && NoRefusal(answers, fx.groups, 2 * |s.vs|) ==>
      s.trc != null && Full(s.trc.State(), s.trc.affinity, Views(tasks), rrtime)
    ensures rv != 0 ==> Searching(s, tasks, AttemptOf(|tasks|, k, withItem) + 1, first', answers, fx, rrtime)
    ensures rv == 0 ==> 0 <= first' <= AttemptOf(|tasks|, k, withItem) && s.First(first', rrtime)
    ensures rv == 0 && s.Succeeds(first', answers(first'), rrtime) ==> Views(tasks) == s.After(first', rrtime)
  {
    hide Scene.Quiet, Scene.First, Scene.Succeeds, Scene.Finds, Scene.Picks, Scene.After, Full, NoRefusal, Rebuilt;
    hide Searching, Calm, AnyPicked, Sibling, Task.Accounted, Tried, IsFixture, TracerFor;
    var a := AttemptOf(|tasks|, k, withItem);
    first' := first;
    if first < 0 {
      TriedFromSearch(s.tracers, s.trc, found, s.ls, ls, LedgersOf(s.tracers), vs, Views(tasks), flags, answers(a), rv,
                      rrtime);
      FirstMove(s, a, found, LedgersOf(s.tracers), Views(tasks), answers(a), rv, rrtime);
      if rv == 1 {
        StillThere(s.tracers, s.trc, found, ls, LedgersOf(s.tracers), vs, Views(tasks), flags, answers(a), rrtime);
        CalmOn(s, tasks, a, ls, withItem, l, rrtime);
      } else {
        first' := a;
        FirstFails(s, tasks, k, a, answers, fx, rv, rrtime);
      }
    }
    if rv != 0 {
      SearchOn(s, tasks, a + 1, first', answers, fx, rrtime);
    }
  }

  /** The same, seen on the search of the whole loop. */
  method AttemptSearching(trc: Tracer?, tracers: seq<Tracer>, tasks: seq<Task>, k: nat, withItem: bool, cpu: int,
                     deadline: nat, rrtime: nat, answers: nat -> Answers, ghost s: Scene, ghost first: int,
                     ghost settled: bool, ghost fx: Fixture)
    returns (rv: int, ghost first': int)
    requires rrtime > 0 && Distinct(tasks) && k < |tasks| && AllConsistent(tracers) && trc == TracerFor(tracers, cpu)
    requires tasks[k].assignedCPU == cpu && tasks[k].pid >= 0 && (deadline == 0 || tasks[k].deadline < deadline)
    requires s.tracers == tracers && s.trc == trc && s.cpu == cpu && s.deadline == deadline && |s.vs| == |tasks|
    requires IsFixture(tasks, fx) && Staged(s, tasks) && Trying(trc, tracers, tasks, s.vs, fx, cpu, deadline, rrtime)
    requires settled ==> Relieving(tracers, trc, tasks, s.vs, fx, cpu, deadline, rrtime)
    requires Searching(s, tasks, AttemptOf(|tasks|, k, withItem), first, answers, fx, rrtime)
    modifies tasks`assignedCPU, tasks`resched, tracers
    ensures IsFixture(tasks, fx) && Staged(s, tasks) && AllConsistent(tracers)
    ensures rv != 0 ==> Trying(trc, tracers, tasks, s.vs, fx, cpu, deadline, rrtime)
    ensures rv == 0 ==> MovedWith(tracers, s.vs, Views(tasks), fx.groups, fx.conts, fx.dues, cpu, deadline)
    ensures rv == 0 && trc != null ==> LoadOf(trc.State()) <= 1.0 && Agrees(trc, Views(tasks), rrtime)
    ensures settled && rv != 0 ==> Relieving(tracers, trc, tasks, s.vs, fx, cpu, deadline, rrtime)
    ensures settled && rv == 0 ==> Settled(tracers, Views(tasks), fx.groups, rrtime)
    ensures settled && rv == 0 ==> OnlyLeft(s.vs, Views(tasks), fx.groups, fx.dues, cpu, deadline)
    ensures rv != 0 ==> Searching(s, tasks, AttemptOf(|tasks|, k, withItem) + 1, first', answers, fx, rrtime)
    ensures rv == 0 ==> 0 <= first' <= AttemptOf(|tasks|, k, withItem) && s.First(first', rrtime)
    ensures rv == 0 && s.Succeeds(first', answers(first'), rrtime) ==> Views(tasks) == s.After(first', rrtime)
  {
    hide LoadOf, Consistent, Rebuilt, Group, Task.Accounted, AllAgree, OneCPUEach, Colocated, TracerFor, OnlyLeft;
    hide MovedWith, OnlyTo, MainCPU, Full, Agrees, AllConsistent, IsFixture, Looked, AllAccepted, Distinct, Trying;
    hide Relieving, Staged, Sibling, Searching, Tried, NoRefusal, Ready, Settled;
    hide Scene.Quiet, Scene.First, Scene.Succeeds, Scene.Finds, Scene.Picks, Scene.After;
    ghost var ls, l := LedgersOf(tracers), if trc == null then Empty(false) else trc.State();
    ghost var vs, flags := Views(tasks), Flags(tasks, tasks[k]);
    ghost var full := NoRefusal(answers, fx.groups, 2 * |s.vs|) ==>
      trc != null && Full(trc.State(), trc.affinity, Views(tasks), rrtime);
    GetReady(s, tasks, k, withItem, first, answers, fx, rrtime);
    ghost var found;
    rv, found := AttemptFrom(trc, tracers, tasks, k, withItem, cpu, deadline, rrtime,
                             answers(AttemptOf(|tasks|, k, withItem)), settled, s.vs, fx);
    assert Flags(tasks, tasks[k]) == flags;
    first' := SearchStep(s, tasks, k, withItem, first, ls, l, found, flags, answers, full, fx, vs, rv, rrtime);
  }

  /** Where the loop stands before attempt `a`. */
  ghost predicate Underway(s: Scene, tasks: seq<Task>, a: nat, first: int, settled: bool, answers: nat -> Answers,
                           fx: Fixture, rrtime: nat)
    requires rrtime > 0
    reads tasks, s.tracers, s.trc
  {
    && AllConsistent(s.tracers) && IsFixture(tasks, fx) && Staged(s, tasks)
    && s.trc == TracerFor(s.tracers, s.cpu) && |s.vs| == |tasks|
    && Trying(s.trc, s.tracers, tasks, s.vs, fx, s.cpu, s.deadline, rrtime)
    && (settled ==> Relieving(s.tracers, s.trc, tasks, s.vs, fx, s.cpu, s.deadline, rrtime))
    && Searching(s, tasks, a, first, answers, fx, rrtime)
  }

  /** How the loop ends when an attempt has helped. */
  ghost predicate Relieved(s: Scene, tasks: seq<Task>, first: int, settled: bool, answers: nat -> Answers,
                           fx: Fixture, rrtime: nat)
    requires rrtime > 0
    reads tasks, s.tracers, s.trc
  {
    && AllConsistent(s.tracers) && IsFixture(tasks, fx) && s.Fitting()
    && MovedWith(s.tracers, s.vs, Views(tasks), fx.groups, fx.conts, fx.dues, s.cpu, s.deadline)
    && (s.trc != null ==> LoadOf(s.trc.State()) <= 1.0 && Agrees(s.trc, Views(tasks), rrtime))
    && (settled ==>
          Settled(s.tracers, Views(tasks), fx.groups, rrtime)
          && OnlyLeft(s.vs, Views(tasks), fx.groups, fx.dues, s.cpu, s.deadline))
    && first >= 0 && s.First(first, rrtime)
    && (s.Succeeds(first, answers(first), rrtime) ==> Views(tasks) == s.After(first, rrtime))
  }

  /** The same, seen on the search of the whole loop. */
  method AttemptNext(trc: Tracer?, tracers: seq<Tracer>, tasks: seq<Task>, k: nat, withItem: bool, cpu: int,
                     deadline: nat, rrtime: nat, answers: nat -> Answers, ghost s: Scene, ghost first: int,
                     ghost settled: bool, ghost fx: Fixture)
    returns (rv: int, ghost first': int)
    requires rrtime > 0 && Distinct(tasks) && k < |tasks|
    requires tasks[k].assignedCPU == cpu && tasks[k].pid >= 0 && (deadline == 0 || tasks[k].deadline < deadline)
    requires s.tracers == tracers && s.trc == trc && s.cpu == cpu && s.deadline == deadline
    requires Underway(s, tasks, AttemptOf(|tasks|, k, withItem), first, settled, answers, fx, rrtime)
    modifies tasks`assignedCPU, tasks`resched, tracers
    ensures rv != 0 ==> Underway(s, tasks, AttemptOf(|tasks|, k, withItem) + 1, first', settled, answers, fx, rrtime)
    ensures rv == 0 ==> Relieved(s, tasks, first', settled, answers, fx, rrtime)
  {
    hide LoadOf, Consistent, Rebuilt, Group, Task.Accounted, TracerFor, OnlyLeft, Trying, Relieving, Staged, Searching;
    hide MovedWith, Agrees, AllConsistent, IsFixture, Distinct, NoRefusal, Settled, Underway, Relieved;
    hide Scene.First, Scene.Succeeds, Scene.After, Scene.Fitting;
    UnderwayParts(s, tasks, AttemptOf(|tasks|, k, withItem), first, settled, answers, fx, rrtime);
    rv, first' :=
      AttemptSearching(trc, tracers, tasks, k, withItem, cpu, deadline, rrtime, answers, s, first, settled, fx);
    if rv != 0 {
      MakeUnderway(s, tasks, AttemptOf(|tasks|, k, withItem) + 1, first', settled, answers, fx, rrtime);
    } else {
      MakeRelieved(s, tasks, first', settled, answers, fx, rrtime);
    }
  }

  lemma UnderwayParts(s: Scene, tasks: seq<Task>, a: nat, first: int, settled: bool, answers: nat -> Answers,
                      fx: Fixture, rrtime: nat)
    requires rrtime > 0 && Underway(s, tasks, a, first, settled, answers, fx, rrtime)
    ensures AllConsistent(s.tracers) && IsFixture(tasks, fx) && Staged(s, tasks) && s.Fitting()
    ensures s.trc == TracerFor(s.tracers, s.cpu) && |s.vs| == |tasks|
    ensures Trying(s.trc, s.tracers, tasks, s.vs, fx, s.cpu, s.deadline, rrtime)
    ensures settled ==> Relieving(s.tracers, s.trc, tasks, s.vs, fx, s.cpu, s.deadline, rrtime)
    ensures Searching(s, tasks, a, first, answers, fx, rrtime)
  {
    hide AllConsistent, IsFixture, TracerFor, Trying, Relieving, Searching, Dues, Affinities, AllFlags, Scene.Fitting;
  }

  lemma MakeUnderway(s: Scene, tasks: seq<Task>, a: nat, first: int, settled: bool, answers: nat -> Answers,
                     fx: Fixture, rrtime: nat)
    requires rrtime > 0 && AllConsistent(s.tracers) && IsFixture(tasks, fx) && Staged(s, tasks)
    requires s.trc == TracerFor(s.tracers, s.cpu) && |s.vs| == |tasks|
    requires Trying(s.trc, s.tracers, tasks, s.vs, fx, s.cpu, s.deadline, rrtime)
    requires settled ==> Relieving(s.tracers, s.trc, tasks, s.vs, fx, s.cpu, s.deadline, rrtime)
    requires Searching(s, tasks, a, first, answers, fx, rrtime)
    ensures Underway(s, tasks, a, first, settled, answers, fx, rrtime)
  {
    hide AllConsistent, IsFixture, TracerFor, Trying, Relieving, Searching, Staged;
  }

  lemma MakeRelieved(s: Scene, tasks: seq<Task>, first: int, settled: bool, answers: nat -> Answers,
                     fx: Fixture, rrtime: nat)
    requires rrtime > 0 && AllConsistent(s.tracers) && IsFixture(tasks, fx) && s.Fitting()
    requires MovedWith(s.tracers, s.vs, Views(tasks), fx.groups, fx.conts, fx.dues, s.cpu, s.deadline)
    requires s.trc != null ==> LoadOf(s.trc.State()) <= 1.0 && Agrees(s.trc, Views(tasks), rrtime)
    requires settled ==>
      Settled(s.tracers, Views(tasks), fx.groups, rrtime)
      && OnlyLeft(s.vs, Views(tasks), fx.groups, fx.dues, s.cpu, s.deadline)
    requires first >= 0 && s.First(first, rrtime)
    requires s.Succeeds(first, answers(first), rrtime) ==> Views(tasks) == s.After(first, rrtime)
    ensures Relieved(s, tasks, first, settled, answers, fx, rrtime)
  {
    hide AllConsistent, IsFixture, MovedWith, Agrees, Settled, OnlyLeft, LoadOf, Scene.First, Scene.Succeeds;
    hide Scene.After;
    hide Scene.Fitting;
  }

  /** The search of the loop before its first attempt. */
  lemma SearchStarts(s: Scene, tracers: seq<Tracer>, tasks: seq<Task>, cpu: int, deadline: nat,
                     answers: nat -> Answers, fx: Fixture, rrtime: nat)
    requires rrtime > 0 && s == SceneOf(tracers, tasks, cpu, deadline)
    ensures Searching(s, tasks, 0, -1, answers, fx, rrtime) && Staged(s, tasks)
  {
    hide Task.Accounted, Sibling, AffinityOf, Scene.Stays;
  }

  lemma QuietPasses(s: Scene, a: nat, rrtime: nat)
    requires rrtime > 0 && s.Fitting() && a < 2 * |s.vs| && !s.Picks(a) && s.Quiet(a, rrtime)
    ensures s.Quiet(a + 1, rrtime) && (AnyPicked(s, a + 1) <==> AnyPicked(s, a))
  {
    hide Scene.Finds, Scene.Picks;
  }

  /** A task that does not qualify is passed over. */
  lemma SearchPasses(s: Scene, tasks: seq<Task>, k: nat, withItem: bool, first: int, answers: nat -> Answers,
                     fx: Fixture, rrtime: nat)
    requires rrtime > 0 && Searching(s, tasks, AttemptOf(|tasks|, k, withItem), first, answers, fx, rrtime)
    requires Staged(s, tasks) && k < |tasks|
    requires tasks[k].assignedCPU != s.cpu || tasks[k].pid < 0 || (s.deadline != 0 && tasks[k].deadline >= s.deadline)
    ensures Searching(s, tasks, AttemptOf(|tasks|, k, withItem) + 1, first, answers, fx, rrtime)
  {
    hide Task.Accounted, Sibling, Scene.Finds, Scene.First, Scene.Succeeds, Scene.Quiet, Full, NoRefusal, Agrees;
    hide Searching, Calm, AnyPicked, Rebuilt;
    var a := AttemptOf(|tasks|, k, withItem);
    SearchSays(s, tasks, a, first, answers, fx, rrtime);
    if first < 0 {
      assert s.vs[k] == ViewOf(tasks[k]);
      QuietPasses(s, a, rrtime);
    }
    SearchOn(s, tasks, a + 1, first, answers, fx, rrtime);
  }

  /** What the result of the loop says about its searches. */
  ghost predicate Searched(s: Scene, vs': seq<View>, rv: int, answers: nat -> Answers, fx: Fixture, full: bool,
                           rrtime: nat)
    requires rrtime > 0
  {
    && s.Fitting()
    // if no search finds another tracer, nothing happens and the result is -1
    && (s.Quiet(2 * |s.vs|, rrtime) ==> rv == -1 && vs' == s.vs)
    // else, without refusals, -1 means that the tracer is full
    && (rv == -1 && NoRefusal(answers, fx.groups, 2 * |s.vs|) ==> full || s.Quiet(2 * |s.vs|, rrtime))
    // the first attempt that finds another tracer decides if it succeeds: its container is there, nothing else moved
    && (forall a :: 0 <= a < 2 * |s.vs| && s.First(a, rrtime) && s.Succeeds(a, answers(a), rrtime) ==>
          rv == 0 && vs' == s.After(a, rrtime))
  }

  /** What -1 means if the kernel refused nothing and the tracer is not full: for every flexible live task on the
      CPU that is due before the deadline, with its own share left out in the first round (`counted` false) and
      counted in the second, each tracer rejects the task or the task's own one scores at least as well. */
  lemma NothingToGain(s: Scene, answers: nat -> Answers, fx: Fixture, k: nat, counted: bool, i: nat, vs': seq<View>,
                      rrtime: nat)
    requires rrtime > 0 && Searched(s, vs', -1, answers, fx, false, rrtime)
    requires NoRefusal(answers, fx.groups, 2 * |s.vs|) && forall j :: 0 <= j < |s.ls| ==> Consistent(s.ls[j])
    requires k < |s.vs| && s.vs[k].cpu == s.cpu >= 0 && s.vs[k].pid >= 0 && s.affinities[k] < 0
    requires s.deadline != 0 ==> s.dues[k] < s.deadline
    requires i < |s.tracers|
    ensures vs' == s.vs && EffectivePeriod(s.vs[k].accounted, rrtime) > 0
    ensures var attr := s.vs[k].accounted;
      var seen := Seen(s.tracers, s.ls, s.trc, s.harmonic, s.vs, if counted then null else s.vs[k].task, rrtime);
      Score(seen[i], attr, rrtime) < 0
      || exists p :: 0 <= p < |s.tracers| && s.tracers[p] == s.trc
                     && 0 <= Score(seen[p], attr, rrtime) <= Score(seen[i], attr, rrtime)
  {
    hide Scene.Finds, Score, Consistent, NoRefusal, Seen;
    var a := if counted then |s.vs| + k else k;
    assert s.Quiet(2 * |s.vs|, rrtime) && s.Stays(a, rrtime) && s.Index(a) == k;
    NowhereBetter(s, a, i, rrtime);
  }

  lemma OnlyOneFirst(s: Scene, a: nat, b: nat, rrtime: nat)
    requires rrtime > 0 && s.Fitting() && s.First(a, rrtime) && s.First(b, rrtime)
    ensures a == b
  {
    hide Scene.Stays;
  }

  lemma SearchFails(s: Scene, tasks: seq<Task>, first: int, answers: nat -> Answers, fx: Fixture, rrtime: nat)
    requires rrtime > 0 && |s.vs| == |tasks| && Searching(s, tasks, 2 * |tasks|, first, answers, fx, rrtime)
    ensures Searched(s, Views(tasks), -1, answers, fx,
                     s.trc != null && Full(s.trc.State(), s.trc.affinity, Views(tasks), rrtime), rrtime)
  {
    hide Scene.Stays, Scene.Succeeds, Full, NoRefusal, Agrees, Task.Accounted, Calm, Rebuilt, AnyPicked, Searching;
    SearchSays(s, tasks, 2 * |tasks|, first, answers, fx, rrtime);
    if first >= 0 {
      var f: nat := first;
      forall a: nat | s.First(a, rrtime) ensures a == f {
        OnlyOneFirst(s, a, f, rrtime);
      }
    }
  }

  lemma SearchSucceeds(s: Scene, vs': seq<View>, first: int, answers: nat -> Answers, fx: Fixture, full: bool,
                       rrtime: nat)
    requires rrtime > 0 && s.Fitting() && first >= 0 && s.First(first, rrtime)
    requires s.Succeeds(first, answers(first), rrtime) ==> vs' == s.After(first, rrtime)
    ensures Searched(s, vs', 0, answers, fx, full, rrtime)
  {
    hide Scene.Stays, Scene.Succeeds, NoRefusal;
    forall a: nat | a < 2 * |s.vs| && s.First(a, rrtime) && s.Succeeds(a, answers(a), rrtime)
      ensures vs' == s.After(a, rrtime)
    {
      OnlyOneFirst(s, a, first, rrtime);
    }
  }

  lemma LoopStarts(s: Scene, tracers: seq<Tracer>, tasks: seq<Task>, cpu: int, deadline: nat,
                   answers: nat -> Answers, fx: Fixture, settled: bool, rrtime: nat)
    requires rrtime > 0 && s == SceneOf(tracers, tasks, cpu, deadline) && AllConsistent(tracers)
    requires fx == Fixture(Groups(tasks), Conts(tasks), Dues(tasks))
    requires settled ==> Settled(tracers, s.vs, fx.groups, rrtime) && TracerFor(tracers, cpu) != null
    ensures s.tracers == tracers && s.trc == TracerFor(tracers, cpu) && s.cpu == cpu && s.deadline == deadline
    ensures s.vs == Views(tasks) && Underway(s, tasks, 0, -1, settled, answers, fx, rrtime)
  {
    hide Consistent, Group, Named, Task.Accounted, TracerFor, OnlyLeft, Settled, MovedWith, OnlyTo, Rebuilt, Full;
    hide Searching, Staged, Agrees, MainCPU, Sibling;
    NobodyLeft(s.vs, fx.groups, fx.dues, cpu, deadline);
    NobodyMoved(tracers, s.vs, fx.groups, fx.conts, fx.dues, cpu, deadline);
    NobodyCame(s.vs);
    SearchStarts(s, tracers, tasks, cpu, deadline, answers, fx, rrtime);
  }

  lemma LoopPasses(s: Scene, tasks: seq<Task>, k: nat, withItem: bool, first: int, settled: bool,
                   answers: nat -> Answers, fx: Fixture, rrtime: nat)
    requires rrtime > 0 && Underway(s, tasks, AttemptOf(|tasks|, k, withItem), first, settled, answers, fx, rrtime)
    requires k < |tasks|
    requires tasks[k].assignedCPU != s.cpu || tasks[k].pid < 0 || (s.deadline != 0 && tasks[k].deadline >= s.deadline)
    ensures Underway(s, tasks, AttemptOf(|tasks|, k, withItem) + 1, first, settled, answers, fx, rrtime)
  {
    hide Searching, Staged, Trying, Relieving, IsFixture, AllConsistent, TracerFor;
    SearchPasses(s, tasks, k, withItem, first, answers, fx, rrtime);
  }

  /** What the loop says when it ends without success. */
  lemma LoopFails(s: Scene, tasks: seq<Task>, first: int, settled: bool, answers: nat -> Answers, fx: Fixture,
                  rrtime: nat)
    requires rrtime > 0 && Underway(s, tasks, 2 * |tasks|, first, settled, answers, fx, rrtime)
    ensures AllConsistent(s.tracers) && Groups(tasks) == fx.groups && Conts(tasks) == fx.conts && Dues(tasks) == fx.dues
    ensures MovedWith(s.tracers, s.vs, Views(tasks), fx.groups, fx.conts, fx.dues, s.cpu, s.deadline)
    ensures s.trc != null ==>
      OnlyTo(s.vs, Views(tasks), MainCPU(s.trc)) || Full(s.trc.State(), s.trc.affinity, Views(tasks), rrtime)
    ensures Searched(s, Views(tasks), -1, answers, fx,
                     s.trc != null && Full(s.trc.State(), s.trc.affinity, Views(tasks), rrtime), rrtime)
    ensures settled ==>
      && Settled(s.tracers, Views(tasks), fx.groups, rrtime)
      && OnlyLeft(s.vs, Views(tasks), fx.groups, fx.dues, s.cpu, s.deadline) && s.trc != null
      && (Views(tasks) == s.vs || LoadOf(s.trc.State()) > 1.0)
  {
    hide Searching, Searched, Staged, MovedWith, OnlyTo, Full, Settled, OnlyLeft, AllConsistent, TracerFor, MainCPU;
    hide LoadOf, Group, Named, Task.Accounted;
    SearchFails(s, tasks, first, answers, fx, rrtime);
  }

  lemma LoopSucceeds(s: Scene, tasks: seq<Task>, first: int, settled: bool, answers: nat -> Answers, fx: Fixture,
                     full: bool, rrtime: nat)
    requires rrtime > 0 && Relieved(s, tasks, first, settled, answers, fx, rrtime)
    ensures AllConsistent(s.tracers) && Groups(tasks) == fx.groups && Conts(tasks) == fx.conts && Dues(tasks) == fx.dues
    ensures MovedWith(s.tracers, s.vs, Views(tasks), fx.groups, fx.conts, fx.dues, s.cpu, s.deadline)
    ensures s.trc != null ==> LoadOf(s.trc.State()) <= 1.0 && Agrees(s.trc, Views(tasks), rrtime)
    ensures Searched(s, Views(tasks), 0, answers, fx, full, rrtime)
    ensures settled ==>
      && Settled(s.tracers, Views(tasks), fx.groups, rrtime)
      && OnlyLeft(s.vs, Views(tasks), fx.groups, fx.dues, s.cpu, s.deadline)
  {
    hide Searched, MovedWith, Agrees, Settled, OnlyLeft, AllConsistent, LoadOf, Group, Named, Task.Accounted;
    hide Scene.First, Scene.Succeeds, Scene.After;
    SearchSucceeds(s, Views(tasks), first, answers, fx, full, rrtime);
  }

  /** One round over all tasks. */
  method Round(trc: Tracer?, tracers: seq<Tracer>, tasks: seq<Task>, withItem: bool, cpu: int, deadline: nat,
               rrtime: nat, answers: nat -> Answers, ghost s: Scene, ghost first: int, ghost settled: bool,
               ghost fx: Fixture)
    returns (rv: int, ghost first': int)
    requires rrtime > 0 && Distinct(tasks)
    requires s.tracers == tracers && s.trc == trc && s.cpu == cpu && s.deadline == deadline
    requires Underway(s, tasks, AttemptOf(|tasks|, 0, withItem), first, settled, answers, fx, rrtime)
    modifies tasks`assignedCPU, tasks`resched, tracers
    ensures rv != 0 ==> Underway(s, tasks, AttemptOf(|tasks|, |tasks|, withItem), first', settled, answers, fx, rrtime)
    ensures rv == 0 ==> Relieved(s, tasks, first', settled, answers, fx, rrtime)
  {
    hide Underway, Relieved, Distinct;
    first' := first;
    for i := 0 to |tasks|
      invariant Underway(s, tasks, AttemptOf(|tasks|, i, withItem), first', settled, answers, fx, rrtime)
    {
      var item := tasks[i];
      assert AttemptOf(|tasks|, i, withItem) + 1 == AttemptOf(|tasks|, i + 1, withItem);
      if item.assignedCPU != cpu || 0 > item.pid || (deadline != 0 && item.deadline >= deadline) {
        LoopPasses(s, tasks, i, withItem, first', settled, answers, fx, rrtime);
        continue;
      }
      rv, first' :=
        AttemptNext(trc, tracers, tasks, i, withItem, cpu, deadline, rrtime, answers, s, first', settled, fx);
      if rv == 0 {
        return;
      }
    }
    rv := -1;
  }

  /** The two rounds: in the second one tasks stay in their tracer's account. */
  method TwoRounds(trc: Tracer?, tracers: seq<Tracer>, tasks: seq<Task>, cpu: int, deadline: nat,
                   rrtime: nat, answers: nat -> Answers, ghost s: Scene, ghost settled: bool, ghost fx: Fixture)
    returns (rv: int, ghost first: int)
    requires rrtime > 0 && Distinct(tasks)
    requires s.tracers == tracers && s.trc == trc && s.cpu == cpu && s.deadline == deadline
    requires Underway(s, tasks, 0, -1, settled, answers, fx, rrtime)
    modifies tasks`assignedCPU, tasks`resched, tracers
    ensures rv == 0 || rv == -1
    ensures rv != 0 ==> Underway(s, tasks, 2 * |tasks|, first, settled, answers, fx, rrtime)
    ensures rv == 0 ==> Relieved(s, tasks, first, settled, answers, fx, rrtime)
  {
    hide Underway, Relieved, Distinct;
    first := -1;
    for round := 0 to 2
      invariant Underway(s, tasks, if round == 0 then 0 else if round == 1 then |tasks| else 2 * |tasks|, first,
                         settled, answers, fx, rrtime)
    {
      rv, first := Round(trc, tracers, tasks, round == 1, cpu, deadline, rrtime, answers, s, first, settled, fx);
      if rv == 0 {
        return;
      }
    }
    rv := -1;
  }

  /** Tries to relieve a CPU by moving its tasks; 0 when that worked. The second round leaves the task
      in its tracer's account and thereby forces a move. `answers` are those of the kernel in each attempt, one
      attempt per round and position of the list. */
  method PickPidReallocCPU(cpu: int, deadline: nat, tracers: seq<Tracer>, tasks: seq<Task>, rrtime: nat,
                           answers: nat -> Answers)
    returns (rv: int)
    requires rrtime > 0 && Distinct(tasks) && AllConsistent(tracers)
    modifies tasks`assignedCPU, tasks`resched, tracers
    ensures rv == 0 || rv == -1
    ensures AllConsistent(tracers) && Groups(tasks) == old(Groups(tasks))
    // whatever the state: who may have moved
    ensures MovedWith(tracers, old(Views(tasks)), Views(tasks), Groups(tasks), Conts(tasks), Dues(tasks), cpu, deadline)
    // success: the CPU is within capacity, and its ledger is right
    ensures rv == 0 && TracerFor(tracers, cpu) != null ==>
      LoadOf(TracerFor(tracers, cpu).State()) <= 1.0 && Agrees(TracerFor(tracers, cpu), Views(tasks), rrtime)
    // failure: it is still full, or all that happened is that refused moves ended on it
    ensures rv == -1 && TracerFor(tracers, cpu) != null ==>
      OnlyTo(old(Views(tasks)), Views(tasks), MainCPU(TracerFor(tracers, cpu)))
      || Full(TracerFor(tracers, cpu).State(), TracerFor(tracers, cpu).affinity, Views(tasks), rrtime)
    // what the searches found
    ensures Searched(old(SceneOf(tracers, tasks, cpu, deadline)), Views(tasks), rv, answers,
                     Fixture(Groups(tasks), Conts(tasks), Dues(tasks)),
                     TracerFor(tracers, cpu) != null
                     && Full(TracerFor(tracers, cpu).State(), TracerFor(tracers, cpu).affinity, Views(tasks), rrtime),
                     rrtime)
    // and from a settled state
    ensures old(Settled(tracers, Views(tasks), Groups(tasks), rrtime)) && TracerFor(tracers, cpu) != null ==>
      && Settled(tracers, Views(tasks), Groups(tasks), rrtime)
      && OnlyLeft(old(Views(tasks)), Views(tasks), Groups(tasks), Dues(tasks), cpu, deadline)
      && (rv == -1 ==> Views(tasks) == old(Views(tasks)) || LoadOf(TracerFor(tracers, cpu).State()) > 1.0)
  {
    hide LoadOf, Consistent, Group, Named, Task.Accounted, TracerFor, OnlyLeft, Settled, MovedWith, OnlyTo, Rebuilt;
    hide AllConsistent, Searched, Underway, Relieved, Agrees, MainCPU, Distinct, IsFixture, Sibling, Full;
    ghost var s, fx := SceneOf(tracers, tasks, cpu, deadline), Fixture(Groups(tasks), Conts(tasks), Dues(tasks));
    ghost var settled := Settled(tracers, Views(tasks), fx.groups, rrtime) && TracerFor(tracers, cpu) != null;
    LoopStarts(s, tracers, tasks, cpu, deadline, answers, fx, settled, rrtime);
    var trc := GetTracer(tracers, cpu);
    ghost var first;
    rv, first := TwoRounds(trc, tracers, tasks, cpu, deadline, rrtime, answers, s, settled, fx);
    if rv == 0 {
      LoopSucceeds(s, tasks, first, settled, answers, fx,
                   trc != null && Full(trc.State(), trc.affinity, Views(tasks), rrtime), rrtime);
    } else {
      LoopFails(s, tasks, first, settled, answers, fx, rrtime);
    }
  }
}
