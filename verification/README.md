# Real-time container orchestrator: verified scheduling core

A Dafny model of the parts of the orchestrator that decide where real-time containers run, and of the
list, buffer and mailbox code they stand on. Objects the C code updates in place are classes with
methods; each method is proved against a function of its inputs or of the old state, and what the
program promises is proved about those functions.

- `CommonUtil`, `Ledger`, `Periods`, `Resources`, `Tracers`: the CPU load ledger. A tracer keeps a
  hyper-period and the time consumed in it; adding a task rescales both by a least common multiple.
  All divisions are shown exact, so the ledger is the exact sum of the tasks' shares.
- `Comparators`, `ListSort`, `Plan`, `Scramble`: sorting of resource requests and the admission plan.
- `Realloc`, `Deadline`: run-time moves of containers with rollback, and deadline tracking.
- `ScanMerge`: the in-place merge of a process scan into the live process list.
- `Links`: the consistency check of images, containers and PID entries.
- `KBuffer`, `PageFormat`: the ring-buffer page cursor and the re-writer of partial pages, and what they make of
  pages encoded independently from the format.
- `Mailbox`: the one-slot event mailbox as a state machine over all interleavings.
- `CpuList`: the CPU list and hexadecimal mask printers against readers of the formats.
- `Options`, `Sums`: an optional value, and facts about sums and permutations.

Machine integers are unbounded naturals unless a member says otherwise: `Ledgers.WordsAreExact` bounds
the 64-bit ledger, `KBuffer` wraps positions at 2^32 and times at 2^64, `CpuList` wraps the length
counter, and `Comparators` and `ScanMerge` truncate comparator results to 32 bits. Utilizations are exact
ratios instead of floats. The kernel's answers to affinity calls, debug-file readings and attribute re-reads are
inputs, pipe events nondeterministic choices.

What the proofs found in the code, each with its exact condition or a concrete case:

- A recomputation keeps the harmonic flag, which can then be wrong (`Resources.RebuiltFlagIsRightIff`,
  `Resources.RebuiltFlagCanBeStale`).
- The plan's comparator is not transitive when period differences hit multiples of INT32_MAX, and without
  periods runtimes can even rank in a circle (`Comparators.CmpSTransitiveIff`, `Comparators.RuntimesCanCycle`);
  it is a strict partial order for items whose differences are not truncated (`Comparators.CmpSMeansIff`,
  `Comparators.CmpSIsStrictOrder`).
- The third planning pass charges nothing. All items without a known runtime, and those with a known one that
  fit nowhere or name a CPU without tracer, land on one tracer, whatever their policy (`Plan.PlanRest`).
- The 20 percent slack in choosing that tracer accumulates, once per win (`Plan.GrepSlackBound`,
  `Plan.GrepSlackAccumulates`, at most once where `Plan.SlackWinsOnce` applies), and can select a tracer above
  capacity (`Plan.GrepOverloadsIff`, `Plan.GrepCanOverload`).
- Among equal tracers the preferred CPU is the negated affinity, so -1 prefers CPU 1 and CPU 0 cannot be
  preferred (`Resources.PreferenceIsNegated`).
- A refused move is undone to the old tracer's main CPU, which restores the old state exactly when the
  touched threads were all there (`Realloc.UndoneIffTogether`, `Realloc.SplitContainerGoesWrong`); without an
  old tracer there is no undo.
- A move only recomputes origin and destination. When a container is split over CPUs, the ledger of any other
  CPU a thread leaves becomes stale (`Realloc.MovedAllAgreeIff`, `Realloc.SplitContainerGoesWrong`).
- A tracer charged for the plan is not what a recomputation gives as long as no task is on its CPU
  (`Tracers.IdleAgreesIff`).
- A move is reported although nothing moved exactly when all threads of the container were there already
  (`Realloc.PidReallocAndTest`); a node without a container always is such a case
  (`Realloc.NoContainerNothingMoves`).
- When the highest CPU is set, the CPU list loses all of its run but the first CPU (`CpuList.ListDenotes`);
  a mask of ones only is printed as "0" (`CpuList.OnesPrintZero`).
- The byte order "same as host" is not recorded on a big-endian host (`KBuffer.AllocatedAsAskedIff`).

## Model

| member | source | states |
|---|---|---|
| CommonUtil.Gcd | src/include/cmnutil.h:68-80 | the Euclidean loop ends, for all inputs including 0, and a number divides its result exactly when it divides both arguments |
| CommonUtil.GcdIsMeet | src/include/cmnutil.h:68-80 | a number divides the result exactly when it divides both arguments |
| CommonUtil.Bezout | src/include/cmnutil.h:68-80 | the result is an integer combination of the arguments |
| CommonUtil.Lcm | src/include/cmnutil.h:86-94 | computed with the division first and without error for 0; the multiples of the result are exactly the common multiples |
| CommonUtil.LcmTimesGcd | src/include/cmnutil.h:86-94 | dividing by the gcd first loses no remainder: lcm times gcd is the product |
| CommonUtil.LcmIsJoin | src/include/cmnutil.h:86-94 | a number is a multiple of the lcm exactly when it is one of both arguments |
| Periods.NearestStep | src/orchestrator/resmgnt.c:780-789 | above 100 the match is a multiple of one fortieth of the next power of ten that no other multiple comes closer to, and lies within one eighth of the input |
| Periods.WithinDecade | src/orchestrator/resmgnt.c:780-789 | a match is never zero and never above the power of ten it is derived from |
| Periods.PowerIsFixed | src/orchestrator/resmgnt.c:780-789 | powers of ten match themselves |
| Periods.MatchIsIdempotent | src/orchestrator/resmgnt.c:780-789 | matching a match changes nothing, for every input |
| Periods.MatchIsMonotone | src/orchestrator/resmgnt.c:780-789 | a longer period is never matched to a shorter one, across decades too |
| Periods.UnmeasuredIsOneSecond | src/orchestrator/resmgnt.c:781-782 | a period never measured counts as one second, no less than the match of any shorter measurement and no more than that of a longer one |
| Ledgers.ExactScale | src/orchestrator/resmgnt.c:867-872 | multiply-then-divide rescaling to a multiple of the base loses no remainder |
| Ledgers.ChargeLoad | src/orchestrator/resmgnt.c:801-887 | adding a task adds exactly its share of the CPU; an unknown runtime never lowers the load |
| Ledgers.RejectedIff | src/orchestrator/resmgnt.c:872-877 | the test fails exactly when used time exceeds the hyper-period, that is when old load plus share exceeds 1; -1 is the only negative score |
| Ledgers.RejectionIsMonotone | src/orchestrator/resmgnt.c:801-887 | a task refused by one tracer is refused by every tracer with at least its load, whatever their hyper-periods |
| Ledgers.NonHarmonicScore | src/orchestrator/resmgnt.c:861-865 | the score of a non-harmonic fit is the number of periods in the consumed time plus the offset, capped at INT_MAX, although the source computes it from the stored utilization |
| Ledgers.ScoreByPeriods | src/orchestrator/resmgnt.c:846-865 | the score of every fit from periods alone: 2 on an unused tracer; with the flag set 0 for equal periods, 1 for a period the base divides, 2 for one that divides the base; else 3 plus the periods in the consumed time, capped |
| Ledgers.EffectivePeriodCases | src/orchestrator/resmgnt.c:804-820 | one second without a period, the slice for a round-robin task with a period that runs at least one slice, else the period |
| Ledgers.SlicedFillsCPU | src/orchestrator/resmgnt.c:813-820 | a round-robin task that outlasts its slice only fits an unloaded tracer, and only with exactly one slice |
| Ledgers.UnknownAddsTenth | src/orchestrator/resmgnt.c:826-830 | an unknown runtime adds a tenth of the consumed time, rounded down, and nothing to an unused tracer |
| Ledgers.CommonPeriodIsJoin | src/orchestrator/resmgnt.c:851-869 | the common period divides a window exactly when every effective period does |
| Ledgers.BookedBase | src/orchestrator/resmgnt.c:834-870 | after any tasks, unknown runtimes included, the base is the least common multiple of the effective periods |
| Ledgers.BookedExactly | src/orchestrator/resmgnt.c:801-887 | for any list of known-runtime tasks on an empty tracer the base is the lcm of the periods and the used time is exactly the sum of runtime times base over period |
| Ledgers.BookedLoad | src/orchestrator/resmgnt.c:801-887 | the same as a load on any starting ledger; the load never falls along the way, unknown runtimes included |
| Ledgers.BookingOrderIrrelevant | src/orchestrator/resmgnt.c:801-887 | base, used time and load do not depend on the order of the tasks |
| Ledgers.ChargeCarries | src/orchestrator/resmgnt.c:801-887 | a ledger over a finer base with at least the time, or strictly more, stays so when both are charged with the same task, unknown runtimes and their rounding included |
| Ledgers.HarmonicBaseIff | src/orchestrator/resmgnt.c:834-884 | the base can be one of the periods and a multiple of all exactly when some period is a multiple of all others |
| Ledgers.HarmonicStep | src/orchestrator/resmgnt.c:852-870 | one charge keeps the harmonic flag exactly when it was set and one of base and period divides the other |
| Ledgers.HarmonicFlagSound | src/orchestrator/resmgnt.c:834-884 | while the flag is set the base is one of the periods and all divide it; once cleared it stays cleared |
| Ledgers.HarmonicFlagComplete | src/orchestrator/resmgnt.c:834-884 | charged longest period first, the flag survives exactly when every period divides the first |
| Ledgers.WordsAreExact | src/orchestrator/resmgnt.c:851-876 | 64-bit arithmetic gives the exact ledger while runtime, common hyper-period and consumed time, dummy load included, are below 2^32 and the tracer was within capacity; unused tracers and unknown runtimes included |
| Resources.CheckUvalue | src/orchestrator/resmgnt.c:801-887 | the score, and the new base, used time, load and flag if asked to add, exactly those of the ledger functions that ScoreByPeriods, ChargeLoad, UnknownAddsTenth, BookedBase and HarmonicStep pin; nothing else changes |
| Resources.TracerFor | src/orchestrator/resmgnt.c:990-998 | null exactly when no mask holds the CPU, else a tracer whose mask does |
| Resources.FirstWithCPU | src/orchestrator/resmgnt.c:990-998 | of several tracers of a CPU it is the first |
| Resources.GetTracer | src/orchestrator/resmgnt.c:990-998 | the loop finds the first tracer of the CPU |
| Resources.GetTracerMainCPU | src/orchestrator/resmgnt.c:1035-1046 | the lowest CPU of the mask, -1 for an empty mask or no tracer |
| Resources.CheckPeriod | src/orchestrator/resmgnt.c:900-934 | with a flexible affinity null exactly when no tracer takes the task, else a fitting one of minimal score, chosen by exactly the source's tie rule; a harmonic tracer that takes the task and has its period wins over all others; with a fixed affinity that CPU's tracer unchecked |
| Resources.PickedIsBest | src/orchestrator/resmgnt.c:910-932 | the exact selection rule, ties on load, running CPU and preference included, always ends on a fitting tracer of minimal score |
| Resources.PerfectWins | src/orchestrator/resmgnt.c:855-856 | if some fitting harmonic tracer has exactly the task's period, so has every best fit |
| Resources.PerfectPicked | src/orchestrator/resmgnt.c:900-934 | so the search returns such a tracer |
| Resources.SecondOfTwo | src/orchestrator/resmgnt.c:912-927 | of two equal scores the second wins if more than 5 percent less loaded; within 5 percent either way only on the running or preferred CPU, and if the first is not on the preferred one |
| Resources.NoneMuchLighter | src/orchestrator/resmgnt.c:915-925 | among equal scores no later tracer is more than 5 percent less loaded than the one picked |
| Resources.PreferenceIsNegated | src/orchestrator/resmgnt.c:910-932 | among tracers of equal score and load the search ends on the first with the CPU of the negated affinity, else on the last later one with the running CPU, else on the first: -1 prefers CPU 1, and CPU 0 can never be preferred |
| Resources.FittingScore | src/orchestrator/resmgnt.c:900-934 | a tracer that takes a task is within capacity before and after, and its score is at most INT_MAX |
| Resources.Account | src/orchestrator/resmgnt.c:1057-1085 | one step of a recomputation: the ledger under construction is charged and the result is -1 exactly while it is above capacity |
| Resources.Rebuild | src/orchestrator/resmgnt.c:1057-1085 | a scratch ledger of exactly the live tasks on the mask's CPUs but the skipped one |
| Resources.CountedNext | src/orchestrator/resmgnt.c:1063-1066 | what counts is a live task on a CPU of the mask that is not the skipped one, with its accounted attributes |
| Resources.AccountedAs | src/orchestrator/resmgnt.c:1068-1075 | a deadline task counts as configured, another one with its estimated runtime and a period that is one second if unmeasured, the measured one if a power of ten, and within an eighth of it above 100 ns |
| Resources.RecomputeTimesU | src/orchestrator/resmgnt.c:1057-1085 | the tracer gets that ledger and keeps its flag; the result is 0 or -1, and -1 exactly when the final load is above capacity |
| Resources.BookOne | src/orchestrator/resmgnt.c:1057-1085 | the load never falls from task to task, so an over-use once seen is still there at the end |
| Resources.FewerLessLoad | src/orchestrator/resmgnt.c:1057-1085 | a recomputation that counts fewer tasks never finds more load, unknown runtimes included, and finds less once a positive runtime drops out |
| Resources.RecomputeCPUTimesU | src/orchestrator/resmgnt.c:1111-1121 | only the CPU's tracer is recomputed; -2 when there is none |
| Resources.CheckPeriodR | src/orchestrator/resmgnt.c:947-979 | exactly what the search returns over the ledgers without the item on its own tracer, its running CPU preferred in ties; afterwards every ledger is recomputed or untouched, so agreeing ledgers end unchanged; null for a task without CPU |
| Resources.SkipRemovesOne | src/orchestrator/resmgnt.c:1057-1085 | leaving a task out removes exactly its attributes from what is counted |
| Resources.HiddenLoadIsOwnShare | src/orchestrator/resmgnt.c:947-979 | the load the search hides is exactly the item's own share, although base and used time are both rescaled |
| Resources.OwnTracerTakesItBack | src/orchestrator/resmgnt.c:947-979 | during the search the item's own tracer takes it exactly when it was not overloaded with it |
| Resources.RebuiltFlagIsRightIff | src/orchestrator/resmgnt.c:1057-1085 | the kept harmonic flag is right after a recomputation exactly when one counted period is a multiple of the others |
| Resources.RebuiltFlagCanBeStale | src/orchestrator/resmgnt.c:1057-1085 | periods 2 and 3 leave a flagged tracer flagged with base 6 |
| Tracers.CreateResTracer | src/orchestrator/resmgnt.c:751-770 | one empty, harmonic tracer for each CPU of the mask and no other, lowest CPU first |
| Tracers.UnchargedAgreesIff | src/orchestrator/resmgnt.c:1057-1085 | an uncharged tracer is what a recomputation would give exactly when no task counts on its CPU |
| Tracers.IdleAgreesIff | src/orchestrator/resmgnt.c:1057-1085 | and while no task counts there, a tracer agrees exactly when it is uncharged, so not when a plan charged it ahead |
| Tracers.StartsSettled | src/orchestrator/resmgnt.c:751-770 | with uncharged tracers and no task on a CPU every ledger agrees and no container is split |
| Tracers.AddTracer | src/orchestrator/adaptive.c:149-165 | the first tracer asked for is charged, over capacity or not, and no other; -1 exactly when there is none or it ends above capacity |
| Tracers.OneBit | src/orchestrator/adaptive.c:176 | the weight of a mask is 1 exactly when it has a single CPU |
| Tracers.AddTracerFix | src/orchestrator/adaptive.c:174-183 | an item with one CPU is put on the first tracer of it, charged there and fixed; it fits exactly when there is such a tracer and it ends within capacity; nothing changes for another item; unless the source gives up, no tracer leaves its capacity |
| Comparators.PeriodRanksIff | src/orchestrator/adaptive.c:45-52 | a longer period ranks first unless the difference is a multiple of INT32_MAX |
| Comparators.CmpSRanksIff | src/orchestrator/adaptive.c:45-110 | for all inputs, when the plan's comparator puts one item before another, with all three truncations spelled out |
| Comparators.CmpSMeansIff | src/orchestrator/adaptive.c:45-110 | the comparator means longer period, then higher utilization, runtime, policy, in both directions exactly when no truncation interferes: unequal periods differ by no multiple of INT32_MAX, and runtimes without periods by something that keeps its sign in 32 bits |
| Comparators.SmallDifferences | src/orchestrator/adaptive.c:45-110 | so in particular whenever the differences, not the values, stay below 2147483647 |
| Comparators.RankedBothWaysIff | src/orchestrator/adaptive.c:45-110 | two items come before each other exactly when neither has a period and their runtimes differ by 2^31 modulo 2^32 |
| Comparators.CmpSTransitiveIff | src/orchestrator/adaptive.c:45-110 | of three items in a row the first comes before the last exactly when their periods differ by no multiple of INT32_MAX or, without periods, their runtime difference stays positive in 32 bits |
| Comparators.PeriodOrderCanBreak | src/orchestrator/adaptive.c:45-110 | three periods that rank in a row while the outer two compare equal |
| Comparators.RuntimesCanCycle | src/orchestrator/adaptive.c:72-110 | three items without a period, each before the next and the last before the first |
| Comparators.CmpSIsStrictOrder | src/orchestrator/adaptive.c:99-110 | where no pair is truncated the plan's comparator is a strict partial order, despite its utilization tolerance |
| Comparators.SortedPeriodsDescend | src/orchestrator/adaptive.c:45-110 | a list sorted by it, no pair truncated, never increases in period |
| Comparators.SortedHarmonic | src/orchestrator/adaptive.c:45-110 | deadline tasks charged in that order keep the harmonic flag exactly when every period divides the first |
| ListSort.GetTail | src/lib/orchdata.c:44-49 | the last node of a list, null for none |
| ListSort.Partition | src/lib/orchdata.c:52-96 | nodes below the pivot stay linked in front of it, the others follow it, none is lost or doubled |
| ListSort.QSortRecur | src/lib/orchdata.c:100-135 | the sorted list is a null-terminated, acyclic list of the same nodes, in order for every strict partial order |
| ListSort.QSort | src/lib/orchdata.c:144-149 | the same for the whole list, the empty one included, for any comparator as far as the nodes are concerned |
| ListSort.SortedAround | src/lib/orchdata.c:100-135 | sorted parts around a pivot that separates them make a sorted whole |
| Plan.PlanItem | src/orchestrator/adaptive.c:369-384 | the turn of an item: it gets and charges exactly the tracer the search returns in this state, of minimal score or that of its CPU; it stays exactly as it was if not eligible, if it fits nowhere, or if its CPU has no tracer |
| Plan.PlanPass | src/orchestrator/adaptive.c:366-407 | every item has its turn in list order, each on the ledgers the one before left; so loads are old loads plus placed shares, loads only grew, every tracer that no unplaced pinned item names keeps its capacity, and what is left over fits nowhere or names a CPU without tracer |
| Plan.Place | src/orchestrator/adaptive.c:376-380 | the tracer is charged with the item, no other is, and the item records it |
| Plan.GuardedPlace | src/orchestrator/adaptive.c:366-407 | one charge keeps the capacity of every tracer that no unplaced pinned item names |
| Plan.RejectedStays | src/orchestrator/adaptive.c:365-407 | an item rejected in one state is rejected in every state with higher loads |
| Plan.PassesCompose | src/orchestrator/adaptive.c:365-407 | two passes together: each item charged at most once, loads exact, capacity as for one pass, and an item rejected in the first is untouched by the second |
| Plan.PeriodsFirst | src/orchestrator/adaptive.c:365-407 | when the first pass ends only items with a runtime and a period are placed, the ledgers carry nothing else on top of their old loads, and a flexible item with both that is still unplaced is rejected by all of them and keeps its state |
| Plan.OneMorePlaced | src/orchestrator/adaptive.c:376-380 | placing an item adds its share to its tracer and to no other |
| Plan.GrepTracer | src/orchestrator/resmgnt.c:1010-1024 | the loop returns the tracer the 20 percent rule selects, null exactly when every tracer is full |
| Plan.GrepNothingIff | src/orchestrator/resmgnt.c:1010-1024 | nothing is found exactly when every tracer is full |
| Plan.GrepLowest | src/orchestrator/resmgnt.c:1010-1024 | among tracers with equal harmonic flags the result has the lowest load of all and is not full |
| Plan.GrepOverloadsIff | src/orchestrator/resmgnt.c:1010-1024 | the result is at or above capacity exactly when a harmonic tracer that full comes within 1.2 times a non-harmonic one held so far and no tracer after it is below capacity |
| Plan.GrepWithinCapacity | src/orchestrator/resmgnt.c:1010-1024 | it is below capacity whenever no harmonic tracer is loaded between 1.0 and 1.2 |
| Plan.GrepSlackBound | src/orchestrator/resmgnt.c:1010-1024 | the result exceeds any other load by at most a factor 1.2 for each time the slack decided |
| Plan.SlackWinsOnce | src/orchestrator/resmgnt.c:1010-1024 | the slack decides at most once when no non-harmonic tracer follows a harmonic one |
| Plan.GrepWithinSlack | src/orchestrator/resmgnt.c:1010-1024 | then the result is within 20 percent of every load |
| Plan.GrepCanOverload | src/orchestrator/resmgnt.c:1010-1024 | a harmonic tracer at 1.10 wins over one at 0.95 |
| Plan.GrepSlackAccumulates | src/orchestrator/resmgnt.c:1010-1024 | four loads for which two such wins leave the result 30 percent above the lowest |
| Plan.Charging | src/orchestrator/adaptive.c:366-407 | the two charging passes turn by turn, with the list and the ledgers in between; together exact loads, capacity of every tracer no unplaced pinned item names, and only items that fit nowhere or have no tracer left over |
| Plan.FindForPolicy | src/orchestrator/adaptive.c:410-454 | whatever is remembered for a policy is what a search finds, since nothing is charged in between |
| Plan.PlanRest | src/orchestrator/adaptive.c:410-454 | all items still without a tracer get the same one, whatever their policies, and nothing is charged |
| Plan.SortPlan | src/orchestrator/adaptive.c:362-363 | the list is permuted, items unchanged; it is in plan order whenever no pair of items is truncated in comparison |
| Plan.AdaptPlanSchedule | src/orchestrator/adaptive.c:360-454 | the whole plan: sorted as above; every item its turn in both passes on the ledgers the turn before left; items with a runtime and a period before all others, and rejected for good by ledgers that carry only such items if unplaced then; the rest placed on one tracer |
| Scramble.RecomputeTimesS | src/orchestrator/adaptive.c:120-139 | the ledger becomes that of exactly the items placed on the tracer, flag kept; -1 exactly when above capacity |
| Scramble.RemovalRelieves | src/orchestrator/adaptive.c:120-139 | taking an item away never raises the load |
| Scramble.MoveItem | src/orchestrator/adaptive.c:474-482 | tracer by tracer: an exact ledger stays exact, the load of a known, exact tracer other than the taker does not rise, and a taker whose test accepted the item is within capacity |
| Scramble.ScrambleItem | src/orchestrator/adaptive.c:469-484 | only this item changes: it moves to exactly the other tracer the search returns, if placed, not fixed and one is returned; that one is charged, the one it leaves accounts for what is left, no other ledger changes |
| Scramble.AdaptScramble | src/orchestrator/adaptive.c:465-486 | every item has its turn in list order on the ledgers the one before left; over the whole list only placed, unfixed items move; each exact ledger stays exact whatever the others are; unless flexible movable items have unknown runtimes, each known, exact tracer within capacity that no movable pinned item names stays so |
| Realloc.MoveThreads | src/orchestrator/manage.c:581-601 | done exactly when the kernel accepts every live thread of the container: all are on the new main CPU and count one move more; else those up to the first refused one are back on the old main CPU, and those before it count the move |
| Realloc.MoveBack | src/orchestrator/manage.c:591-599 | the refused thread and its siblings before it in the list go to the old main CPU, no other thread does |
| Realloc.UndoneIffTogether | src/orchestrator/manage.c:591-600 | an undone move changes nothing exactly when every touched thread was on the old main CPU before |
| Realloc.PidReallocAndTest | src/orchestrator/manage.c:575-610 | -1 exactly when there is another tracer and the kernel refuses a live thread of the container: the threads up to the first refused one go to the old main CPU and those before it count a move, so nothing changes if they started there; else all threads are moved, each counts one move, both ledgers are recomputed; a reported move changed nothing exactly when all its threads were there already |
| Realloc.MoversAre | src/orchestrator/manage.c:581-590 | the threads that move are the live ones whose entry names the container the node's entry names; everyone else stays |
| Realloc.NoContainerNothingMoves | src/orchestrator/manage.c:581-607 | that is always so for a node without a container, which has no threads to move |
| Realloc.RelocationUnseen | src/orchestrator/manage.c:575-610 | the accounting of a mask without the new CPU that counted none of the moved threads does not see a move |
| Realloc.OthersAgreeIff | src/orchestrator/manage.c:575-610 | a third tracer agrees after a completed move exactly when it counted none of the moved threads, as far as those have runtimes |
| Realloc.MovedAllAgreeIff | src/orchestrator/manage.c:575-610 | all ledgers are right after a completed move exactly when each moved thread came from the origin, was on the destination already, or was on a CPU without tracer |
| Realloc.SplitContainerGoesWrong | src/orchestrator/manage.c:575-610 | two threads of a container on CPUs 0 and 1: moved to CPU 2 the account of CPU 1 keeps a thread that is gone, and an undo would have taken that thread to CPU 0 |
| Realloc.MovedStaysSettled | src/orchestrator/manage.c:575-610 | a completed move of a container that was on the origin's CPU keeps every ledger equal to a recomputation and containers on one CPU |
| Realloc.PickPidReallocCPU | src/orchestrator/manage.c:620-638 | from any state and for any answers: if no search finds another tracer nothing changes and the result is -1; without a refusal -1 means that or that the tracer is full; the first attempt that finds another tracer, is accepted and brings the CPU within capacity ends it with 0 and exactly its container moved. Threads only change CPU, to some tracer's main CPU, and only those of a container that a task on this CPU, due before the deadline, named at the start; 0 means the CPU is within capacity and its ledger right; -1 that it is full, now and in a recomputation, or that threads at most came to its main CPU; a settled state stays settled and there tasks only leave the CPU |
| Realloc.NothingToGain | src/orchestrator/manage.c:620-638 | what -1 means without a refusal on a CPU that is not full: for each flexible live task on the CPU due before the deadline, left out in the first round and counted in the second, every tracer rejects it or the task's own one scores at least as well |
| Realloc.NowhereBetter | src/orchestrator/manage.c:620-638 | an attempt for a flexible task that finds no other tracer: each tracer rejects the task, or the task's own one takes it and scores at least as well |
| Realloc.SearchFails | src/orchestrator/manage.c:620-638 | when both rounds end, either no search found another tracer and nothing changed, or the first that did was not accepted or left the CPU above capacity, and without refusals it is full |
| Realloc.SearchSucceeds | src/orchestrator/manage.c:630-635 | the first attempt that finds another tracer decides if it succeeds, and nothing but its container has moved then |
| Realloc.MovedTwice | src/orchestrator/manage.c:620-638 | attempts in a row: a thread that came to the CPU meanwhile and is picked belongs to a container that was picked from before |
| Realloc.StillNoRelief | src/orchestrator/manage.c:620-638 | attempts in a row that did not help: the tracer is full or threads at most came to its main CPU, a full one stays full when threads come to it |
| Deadline.PeriodsBefore | src/orchestrator/manage.c:663-670 | the number of periods counted is exactly the number that start before the limit |
| Deadline.DemandOf | src/orchestrator/manage.c:663-670 | the inner loop adds one budget per such period |
| Deadline.DemandOfOne | src/orchestrator/manage.c:653-672 | the demand of one task: its estimated runtime, or the configured one if there is no estimate, for each period from its deadline to the limit; none elsewhere, deactivated, without deadline or period, or with a deadline behind the limit |
| Deadline.PickPidCheckBuffer | src/orchestrator/manage.c:649-676 | 1 exactly when the deadline comes before now plus the demand of all live tasks on the CPU plus the extra time |
| Deadline.Advance | src/orchestrator/manage.c:759-794 | the catch-up loops end on the first deadline not before now and count the periods added |
| Deadline.MissedReaches | src/orchestrator/manage.c:766-784 | missed periods bring the deadline to the present, by less than a period without overrun chunks and by less than the runtime with them; none is counted for a deadline not yet passed |
| Deadline.ChunksAre | src/orchestrator/manage.c:766-777 | the overrun chunks n of a runtime rt satisfy n p < rt <= (n + 1) p |
| Deadline.ScanfailsAre | src/orchestrator/manage.c:779-784 | the scan failures are the least number of periods that bring what the chunks leave to the present |
| Deadline.NextDeadlineCases | src/orchestrator/manage.c:754-800 | a known deadline a period ahead stays, one less far ahead moves by a period; after a miss, and when none was known, a reading not in the past takes its place; without a reading it moves by whole periods |
| Deadline.NextDeadlineBounds | src/orchestrator/manage.c:741-828 | whatever the debug file returns the new deadline is at least a period away; it is less than two periods away, or the old or a read one, or overrun chunks of the known deadline put it before now plus the runtime |
| Deadline.CountMissed | src/orchestrator/manage.c:765-784 | overrun chunks and scan failures are counted apart and together move the deadline by whole periods |
| Deadline.FirstDeadline | src/orchestrator/manage.c:754-763 | an unset deadline is read or set to now and brought up to the present |
| Deadline.RereadDeadline | src/orchestrator/manage.c:786-799 | after missed periods the deadline is read again and brought up to the present |
| Deadline.UpdateDeadline | src/orchestrator/manage.c:754-800 | the new deadline, the missed periods and both counters as functions of the old deadline, the time and the two debug readings |
| Deadline.CheckBudget | src/orchestrator/manage.c:805-814 | there is an overrun exactly when the runtime exceeds the estimate and the demand before the deadline leaves too little time on the CPU; it is counted, and relief is sought for that CPU from exactly this state, with all that the reallocation guarantees; otherwise nothing changes |
| Deadline.SeekRelief | src/orchestrator/manage.c:810-812 | the reallocation is run for this CPU and the new deadline |
| Deadline.FinishPeriod | src/orchestrator/manage.c:819-827 | dl_diff drops by exactly the missed periods, the runtime is consumed |
| Deadline.PickPidConsolidatePeriod | src/orchestrator/manage.c:741-828 | for a deadline task the deadline is bounded as above, dl_diff drops by one period per counted missed period, and period, scan failure and overrun counters grow exactly; relief is sought exactly after an overrun of the budget, and without it no CPU and no ledger changes; from any state, threads only move with a container named on this CPU and due before the new deadline; placement and ledgers stay settled; another task only has its runtime consumed |
| ScanMerge.MergeHolds | src/orchestrator/update.c:454-537 | the merged list holds exactly the entries that stay, are inserted, or are deactivated, for any list and scan |
| ScanMerge.MergeDescends | src/orchestrator/update.c:454-537 | it is strictly descending by absolute PID |
| ScanMerge.LivePids | src/orchestrator/update.c:454-537 | a PID is live afterwards exactly when scanned and, without tracking, not listed as deactivated |
| ScanMerge.ScannedIsLiveIff | src/orchestrator/update.c:454-537 | the exact invariant the merge relies on: live PIDs are the scanned ones if and only if departed PIDs are tracked or no scanned one is listed as deactivated |
| ScanMerge.DeactivatedHidesReturned | src/orchestrator/update.c:454-537 | why it is needed: without tracking, a list with a deactivated node, which no run produces, would keep a returned process out |
| ScanMerge.TrackedPids | src/orchestrator/update.c:454-537 | with tracking the negative PIDs are exactly the known ones the scan does not have |
| ScanMerge.RunTracks | src/orchestrator/update.c:430-557 | after any number of scans: live is the last scan, deactivated all others ever seen (none without tracking), every node configured once, live nodes are those the process arrived with |
| ScanMerge.InsertRound | src/orchestrator/update.c:460-483 | splices the scanned node in behind the tail, after releasing the deactivated node it replaces |
| ScanMerge.PassRound | src/orchestrator/update.c:486-503 | passes over, deactivates or releases a listed node without disturbing the rest |
| ScanMerge.MeetRound | src/orchestrator/update.c:505-509 | keeps the listed node and releases the scanned one |
| ScanMerge.MergeBoth | src/orchestrator/update.c:457-510 | the main loop ends with one list exhausted and the specified result still ahead |
| ScanMerge.DropRest | src/orchestrator/update.c:512-522 | what is still listed is deactivated or released |
| ScanMerge.AppendRest | src/orchestrator/update.c:527-535 | what is left of the scan is linked in and every node of it configured once |
| ScanMerge.MergeScan | src/orchestrator/update.c:454-537 | the pointer merge yields exactly the specified list; every node is listed or released, never both, none lost |
| ScanMerge.CmpPidItemRanks | src/orchestrator/update.c:49-51 | on PIDs the 32-bit difference never wraps |
| ScanMerge.SortScan | src/orchestrator/update.c:437-441 | sorting a scan of distinct PIDs makes it strictly descending |
| ScanMerge.ScanNew | src/orchestrator/update.c:430-557 | the whole update: sorted scan, specified list, every node listed or released |
| Links.RepairDone | src/lib/orchdata.c:244-344 | a complete check finds no mismatch exactly when the links did not conflict, and exactly then all links of listed items agree |
| Links.OwnerAdded | src/lib/orchdata.c:250-305 | a member without an owner of this kind gets the one that lists it, and no pointer is overwritten |
| Links.MemberAdded | src/lib/orchdata.c:281-337 | an owner that does not list its member gets one entry |
| Links.AgreementExcludesConflict | src/lib/orchdata.c:244-344 | no member of an agreeing configuration is claimed by two owners |
| Links.ListCont | src/lib/orchdata.c:281-293 | a container's image lists it afterwards; that one link at most is added |
| Links.LinkCont | src/lib/orchdata.c:252-263 | the container's image field is set to the listing image if it was null and kept else, fixes count the former and mismatches a different image |
| Links.LinkImgPid | src/lib/orchdata.c:265-276 | the same for a PID entry of an image |
| Links.LinkContPid | src/lib/orchdata.c:295-305 | the same for a PID entry of a container |
| Links.ListImgPid | src/lib/orchdata.c:311-323 | a PID entry's image lists it afterwards; that one link at most is added |
| Links.ListContPid | src/lib/orchdata.c:325-337 | a PID entry's container lists it afterwards; that one link at most is added |
| Links.CheckContParam | src/lib/orchdata.c:244-344 | -1 exactly when listed links conflicted; else all agree both ways and the value is the number of links added; links are only added, as mirrors of given ones; 0 and no change if all agreed before, so also for a second call |
| KBuffer.HostReads4 | src/lib/kbuffer.c:85-109 | native reads with the source's swap test give the data's own byte order on either host |
| KBuffer.HostReads8 | src/lib/kbuffer.c:85-101 | the same for 64-bit words |
| KBuffer.AllocatedAsAskedIff | src/lib/kbuffer.c:214-273 | the byte order allocated is the one asked for except for the host's order on a big-endian host |
| KBuffer.Read8Back | src/lib/kbuffer.c:111-138 | written words read back |
| KBuffer.Kbuf.TranslateData | src/lib/kbuffer.c:454-497 | kind, data start, length and time of the record, for every record kind, as functions of the bytes that PageFormat ties to an independent encoder |
| KBuffer.Kbuf.UpdatePointers | src/lib/kbuffer.c:499-517 | index, next and time move over the record |
| KBuffer.Kbuf.NextEvent | src/lib/kbuffer.c:560-574 | the cursor stops on the next event; skipped time records and paddings hold no event; the remaining events are those from the old next record on |
| KBuffer.Kbuf.LoadSubbuffer | src/lib/kbuffer.c:621-664 | after loading, the remaining events are exactly the events of the page, and the lost-event count is the stored one |
| KBuffer.TiledJoin | src/lib/kbuffer.c:499-574 | two stretches of records mean the events of the first followed by those of the second, with time carried over |
| KBuffer.Moved | src/lib/kbuffer.c:454-517 | a stretch of records means the same wherever its bytes stand |
| KBuffer.Restarted | src/lib/kbuffer.c:999-1012 | copied records with the first time field cleared mean the same when the page starts with the first event's time, absolute stamps included |
| KBuffer.Kbuf.TakeFitting | src/lib/kbuffer.c:984-995 | the longest run of events that fits is passed and the cursor stands on the next one |
| KBuffer.CutMeans | src/lib/kbuffer.c:981-1018 | header, length and copied records form a loadable page of exactly the taken events |
| KBuffer.Kbuf.ReadBuffer | src/lib/kbuffer.c:958-1021 | 0 exactly without events, -1 exactly when the first does not fit; else the buffer is a page of the longest fitting prefix with identical payloads and times, the rest remains, and nothing beyond len is touched |
| KBuffer.ReadAll | src/lib/kbuffer.c:958-1021 | reading until 0 or -1 ends; the pages read, each a good page, hold in order exactly the events that were there less those that remain; 0 exactly when none remain, -1 only if the next event fits no page |
| PageFormat.FirstWordFields | src/lib/kbuffer.c:350-366 | the kind in the high five bits of a big-endian word and the low five of a little-endian one, the time in the others |
| PageFormat.RecordRead | src/lib/kbuffer.c:454-517 | a record encoded from the format, short or long data, time extend, time stamp or padding, is read back with its size, time and event, wherever it stands: the second word of an extend counts 2^27, a stamp replaces the lower 59 bits of the time |
| PageFormat.RecordsRead | src/lib/kbuffer.c:454-574 | so is any list of records: the reader finds exactly their events, with the times folded over their differences, in bytes of either order |
| PageFormat.DecodesEncoded | src/lib/kbuffer.c:454-574 | decoding an encoded list gives its meaning, and the bytes are well formed |
| PageFormat.PageRead | src/lib/kbuffer.c:621-664 | an encoded page with 4 or 8 byte length word is a good one; its events are those meant from the page's time on, and the lost events are 0, -1 for an unknown number, or the stored count |
| PageFormat.BytesInOrder | src/lib/kbuffer.c:127-153 | the first byte is the highest of a big-endian word and the lowest of a little-endian one |
| Mailbox.NextInv | src/lib/dockerlink.c:257-304 | every step of either thread keeps conservation, mutex and control invariants |
| Mailbox.NoLossNoDuplication | src/lib/dockerlink.c:257-304 | in every run consumed events, slot and hand are the produced events in order; both histories only grow |
| Mailbox.DroppedOnlyByStop | src/lib/dockerlink.c:257-304 | after the producer's end at most the event in hand is missing, and only after a stop |
| Mailbox.EndsOnlyWithReason | src/lib/dockerlink.c:245-304 | without a stop request the producer is in its last state or gone exactly when the clock failed at the start, the pipe did not open or failed, or the file ended |
| Mailbox.MutexExactlyInState3 | src/lib/dockerlink.c:257-304 | between rounds the mutex is held exactly in state 3, and never after the exit |
| Mailbox.ConsumerOwnsWhatItSees | src/orchestrator/update.c:353-358 | the lock-free consumer never reads or clears an empty or exchanged slot, and the slot is empty when the producer stores |
| Mailbox.ProducerNeverBlocks | src/lib/dockerlink.c:257-304 | until its end the producer has a step, so the lock never blocks it |
| Mailbox.StopIsReached | src/lib/dockerlink.c:257-304 | after a stop request every producer step brings its end closer, at most eight |
| CpuList.ReadRendered | src/lib/kernutil.c:409-468 | a reader of the list format recovers exactly the CPUs of rendered runs |
| CpuList.MaskRunsAreMaximal | src/lib/kernutil.c:423-463 | the runs written are the maximal runs of set bits in ascending order |
| CpuList.ListDenotes | src/lib/kernutil.c:409-468 | the text denotes exactly the set bits except, if the highest CPU is set, its run behind the first CPU |
| CpuList.OnesAreOneRun | src/lib/kernutil.c:423-463 | a mask of ones only is a single run |
| CpuList.OnesPrintZero | src/lib/kernutil.c:409-468 | and is printed as CPU 0 alone, for any number of CPUs |
| CpuList.ListReadsBackIff | src/lib/kernutil.c:409-468 | the text denotes exactly the set bits unless the two highest bits are both set |
| CpuList.ParseBitmask | src/lib/kernutil.c:409-468 | on success the text is that of the runs; success exactly when the machine's length counter never reads zero, hence always with room for all deductions |
| CpuList.PrintSetBit | src/lib/kernutil.c:430-454 | a set bit opens a run and prints its start, or extends the open run silently; the length counter follows |
| CpuList.PrintClearBit | src/lib/kernutil.c:455-463 | a clear bit prints the end of a run of more than one bit |
| CpuList.CostGrows | src/lib/kernutil.c:423-463 | the deductions only grow with the bits |
| CpuList.ListFits | src/lib/kernutil.c:409-468 | for up to 100 CPUs and that room the text and its terminator fit |
| CpuList.ReadPadded | src/lib/kernutil.c:501-506 | appending sixteen digits shifts the value by a word |
| CpuList.ParseBitmaskHex | src/lib/kernutil.c:481-511 | success exactly with room for sixteen digits per significant word; the text is then the mask's value in base 16 and fits |

## Left out

- Floating point: utilizations, scores and the 20 percent and 5 percent tolerances are computed exactly.
- Ledger arithmetic beyond 2^64: outside the bound of `Ledgers.WordsAreExact` the products may wrap.
- Comparators.CmpSRanksIff: periods and runtimes are those below 2^63, as differences of 64-bit values are taken, and utilizations differ by less than 214748, above which the C code converts a floating value outside the range of int.
- Resources.CheckUvalue: needs a positive effective period; a round-robin slice of 0 makes the C code divide by zero.
- Resources.CheckPeriod: a fixed affinity is returned unchecked, as in the source, so an unplaced item that names a CPU may overload its tracer.
- Resources.CheckUvalue: the INT_MAX score of an unknown runtime is overwritten by the later branches, as in the source.
- Plan.AdaptPlanSchedule: no capacity is claimed for a tracer that an unplaced pinned item with a known runtime names, since the source charges it unchecked.
- Plan.PlanRest: the items it places are not charged by the source, so no load is claimed for them.
- Scramble.AdaptScramble: a tracer with an item the source did not charge, as in the third planning pass, is not exact until it is rebuilt, and one with unknown runtimes has a ledger that depends on the order of the charges; nothing beyond the single turns is claimed for the ledger and capacity of those.
- Tracers.AddTracerFix: where the source ends the program the result is false; the affinity masks `adaptPrepareSchedule` builds are inputs, NUMA nodes and the Umin, Uavg, Umax statistics are left out.
- Realloc.PidReallocAndTest: the `resched` counters are not rolled back by the source, and the status bits and assigned masks are not modelled; nor are the kernel's answers to the calls that undo a move, which the source ignores.
- Realloc.PickPidReallocCPU: nothing keeps the state settled between calls, so the settled clauses are a corollary only: `pickPidInfoS` (src/orchestrator/manage.c:925-928) reassigns one thread at a time, `setPidResources_u` (src/orchestrator/resmgnt.c:307) assigns a CPU without a recomputation, and planned items are charged before their tasks run; the settled state also asks for PIDs other than 0, which no process has.
- Realloc.OthersAgreeIff: a moved thread without a runtime may leave the ledger it left right or wrong, depending on periods and rounding; nothing is claimed for it.
- Tracers.StartsSettled: `adaptPrepareSchedule` and, in the modes that plan, `adaptPlanSchedule` charge tracers before any task has a CPU (src/orchestrator/orchestrator.c:608-613), so it is not the state the reallocation starts from there.
- Deadline.PickPidConsolidatePeriod: histogram fits of runtime and period are not modelled, and an attribute re-read replaces the attributes only; the branch of `get_sched_info` without ftrace, which also updates the statistics, is left out.
- ScanMerge.ScanNew: what `setPidResources` and the release of a node do inside is not modelled, only how often and on which nodes they happen; locking and the PID sources are inputs.
- Links.CheckContParam: lists are sequences, each node of the source's link lists being one entry; allocation failure is not modelled.
- `findPidParameters` and `duplicateOrRefreshContainer`: string lookup over cast structures, with links that are not always two-way.
- KBuffer.Kbuf.ReadBuffer: a negative length, which the source compares as unsigned, is not modelled; pages are well formed, with every record inside the data.
- KBuffer.Kbuf.LoadSubbuffer: counts of lost events are those below 2^63.
- The ring-buffer format before Linux 2.6.31, `kbuffer_read_at_offset`, `kbuffer_refresh` and the raw debugging reader.
- Mailbox.NoLossNoDuplication: memory is sequentially consistent; the pipe, event parsing and what the consumer does with an event are not modelled, nor is the container-removal branch of `updateDocker`.
- CpuList.ParseBitmask: null arguments are not modelled; what the C code writes after its length counter has passed below zero is not claimed to fit.
- `src/orchestrator/prepare.c`, `src/orchestrator/orchestrator.c`, `src/lib/parse_config.c`, `src/lib/runstats.c`, `src/check_dockerRT` and `test-monitor`: environment setup, configuration, statistics and plug-ins.
