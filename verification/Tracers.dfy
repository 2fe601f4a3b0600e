/** How the CPU tracers of `src/orchestrator/resmgnt.c` come to be, when new ones agree with the running
    tasks, and how items with a fixed CPU are put on them. */
module Tracers {
  import opened Ledgers
  import opened Resources
  import opened Realloc
  import opened ListSort
  import opened Plan

  /** A mask with one bit. */
  function SingleBit(n: nat, i: nat): Bitmask
    requires i < n
  {
    seq(n, k => k == i)
  }

  lemma SingleBitFirst(n: nat, i: nat, k: nat)
    requires i < n && k <= i
    ensures FirstCPU(SingleBit(n, i), k) == i
    decreases i - k
  {
  }

  lemma SingleBitMain(t: Tracer, n: nat, i: nat)
    requires i < n && t.affinity == SingleBit(n, i)
    ensures MainCPU(t) == i
  {
    SingleBitFirst(n, i, 0);
  }

  /** The tracers of the CPUs of a mask from `i` on, in ascending order. */
  ghost predicate Built(head: seq<Tracer>, mask: Bitmask, i: nat) {
    && (forall k :: 0 <= k < |head| ==>
         i <= MainCPU(head[k]) < |mask| && mask[MainCPU(head[k])] &&
           head[k].affinity == SingleBit(|mask|, MainCPU(head[k])))
    && (forall j, k :: 0 <= j < k < |head| ==> MainCPU(head[j]) < MainCPU(head[k]))
    && (forall c :: i <= c < |mask| && mask[c] ==> Has(head, c))
  }

  ghost predicate Has(head: seq<Tracer>, cpu: int) {
    exists k :: 0 <= k < |head| && MainCPU(head[k]) == cpu
  }

  lemma BuiltMore(head: seq<Tracer>, mask: Bitmask, i: nat, t: Tracer)
    requires i < |mask| && mask[i] && Built(head, mask, i + 1) && t.affinity == SingleBit(|mask|, i)
    ensures Built([t] + head, mask, i)
  {
    hide FirstCPU, MainCPU, SingleBit;
    SingleBitMain(t, |mask|, i);
    var more := [t] + head;
    forall k | 0 < k < |more| ensures more[k] == head[k-1] {
    }
    forall c | i <= c < |mask| && mask[c] ensures Has(more, c) {
      if c == i {
        assert MainCPU(more[0]) == c;
      } else {
        var k :| 0 <= k < |head| && MainCPU(head[k]) == c;
        assert more[k+1] == head[k];
      }
    }
  }

  lemma BuiltDone(head: seq<Tracer>, mask: Bitmask)
    requires Built(head, mask, 0)
    ensures OneCPUEach(head) && DistinctTracers(head)
    ensures forall c :: TracerFor(head, c) != null <==> IsBitSet(mask, c)
  {
    hide MainCPU;
    forall t | t in head ensures exists k :: 0 <= k < |head| && head[k] == t {
    }
    forall c ensures TracerFor(head, c) != null <==> IsBitSet(mask, c) {
      if IsBitSet(mask, c) {
        assert Has(head, c);
        var k :| 0 <= k < |head| && MainCPU(head[k]) == c;
        assert IsBitSet(head[k].affinity, c);
      }
    }
  }

  /** One empty tracer for every CPU of the mask, the lowest CPU first; built from the top down. */
  method CreateResTracer(mask: Bitmask) returns (head: seq<Tracer>)
    ensures forall t :: t in head ==> fresh(t) && t.State() == Empty(true)
    ensures OneCPUEach(head) && DistinctTracers(head)
    ensures forall c :: TracerFor(head, c) != null <==> IsBitSet(mask, c)
    ensures forall i, j :: 0 <= i < j < |head| ==> MainCPU(head[i]) < MainCPU(head[j])
  {
    hide MainCPU, SingleBit, OneCPUEach;
    head := [];
    var i := |mask|;
    while i > 0
      invariant 0 <= i <= |mask| && Built(head, mask, i)
      invariant forall t :: t in head ==> fresh(t) && t.State() == Empty(true)
    {
      i := i - 1;
      if mask[i] {
        var t := new Tracer(SingleBit(|mask|, i), true);
        BuiltMore(head, mask, i, t);
        head := [t] + head;
      }
    }
    BuiltDone(head, mask);
  }

  /** An uncharged tracer agrees with the task list exactly when no task counts on its CPU. */
  lemma UnchargedAgreesIff(t: Tracer, vs: seq<View>, rrtime: nat)
    requires rrtime > 0 && t.State() == Empty(t.harmonic)
    ensures Agrees(t, vs, rrtime) <==> forall i :: 0 <= i < |vs| ==> !Counts(vs[i], t.affinity, null)
  {
    hide Charge;
    NothingBooked(rrtime);
    CountedIff(vs, t.affinity);
    BookedSomething(CountedAttrs(vs, t.affinity, null), rrtime);
  }

  /** As long as no task counts on its CPU, a tracer agrees exactly when it is uncharged: one that was charged
      ahead, for a plan, does not. */
  lemma IdleAgreesIff(t: Tracer, vs: seq<View>, rrtime: nat)
    requires rrtime > 0 && forall i :: 0 <= i < |vs| ==> !Counts(vs[i], t.affinity, null)
    ensures Agrees(t, vs, rrtime) <==> t.State() == Empty(t.harmonic)
  {
    CountedIff(vs, t.affinity);
    NothingBooked(rrtime);
    ChargeableAll([], rrtime);
  }

  lemma {:induction false} CountedIff(vs: seq<View>, mask: Bitmask)
    ensures CountedAttrs(vs, mask, null) == [] <==> forall i :: 0 <= i < |vs| ==> !Counts(vs[i], mask, null)
  {
    if vs != [] {
      CountedIff(vs[..|vs|-1], mask);
    }
  }

  lemma BookedSomething(s: seq<Attr>, rrtime: nat)
    requires rrtime > 0
    ensures Chargeable(s, rrtime) && (s != [] ==> Booked(Empty(false), s, rrtime).base > 0)
  {
    hide Charge;
    ChargeableAll(s, rrtime);
    NothingBooked(rrtime);
    BookedLoad(Empty(false), s, rrtime);
  }

  /** Uncharged tracers and a task list without any task on a CPU are settled. */
  lemma StartsSettled(tracers: seq<Tracer>, vs: seq<View>, groups: seq<Container?>, rrtime: nat)
    requires rrtime > 0 && OneCPUEach(tracers) && |groups| == |vs|
    requires forall t :: t in tracers ==> t.State() == Empty(true)
    requires forall v :: v in vs ==> v.cpu == -1 && v.pid != 0
    ensures Settled(tracers, vs, groups, rrtime)
  {
    forall i | 0 <= i < |vs| ensures vs[i].cpu == -1 {
      assert vs[i] in vs;
    }
    forall t | t in tracers ensures Agrees(t, vs, rrtime) {
      UnchargedAgreesIff(t, vs, rrtime);
    }
  }

  // ---------------------------------------------------------------------------------------
  // Fixed items
  // ---------------------------------------------------------------------------------------

  /** Whether a request for a CPU, or with -1 for the only CPU of a mask, is for this tracer. */
  predicate Asked(trc: Tracer, mask: Bitmask, cpu: int) {
    (cpu == -1 && IsBitSet(mask, MainCPU(trc))) || IsBitSet(trc.affinity, cpu)
  }

  /** Puts an item on the first tracer asked for and charges it, over capacity or not. -1 exactly when
      there is none or it ends above its capacity. */
  method AddTracer(res: Node<Alloc>, mask: Bitmask, cpu: int, tracers: seq<Tracer>, rrtime: nat)
    returns (rv: int, ghost m: int)
    requires rrtime > 0 && AllConsistent(tracers) && DistinctTracers(tracers)
    modifies res`item, tracers
    ensures AllConsistent(tracers) && -1 <= m < |tracers| && rv >= -1
    ensures m == -1 <==> forall k :: 0 <= k < |tracers| ==> !Asked(tracers[k], mask, cpu)
    ensures m == -1 ==> rv == -1 && res.item == old(res.item) && LedgersOf(tracers) == old(LedgersOf(tracers))
    ensures m >= 0 ==> Asked(tracers[m], mask, cpu) && forall k :: 0 <= k < m ==> !Asked(tracers[k], mask, cpu)
    ensures EffectivePeriod(res.item.attr, rrtime) > 0
    ensures m >= 0 ==>
      && res.item == old(res.item).(tracer := tracers[m])
      && LedgersOf(tracers) == old(LedgersOf(tracers))[m := Charge(old(LedgersOf(tracers))[m], res.item.attr, rrtime)]
      && (rv == -1 <==> LoadOf(LedgersOf(tracers)[m]) > 1.0)
  {
    hide Score, Charge, Consistent, MainCPU, LoadOf;
    EffectivePeriodPositive(res.item.attr, rrtime);
    m := -1;
    rv := -1;
    for i := 0 to |tracers|
      invariant m == -1 && rv == -1 && forall k :: 0 <= k < i ==> !Asked(tracers[k], mask, cpu)
    {
      var trc := tracers[i];
      if (-1 == cpu && IsBitSet(mask, MainCPU(trc))) || IsBitSet(trc.affinity, cpu) {
        m := i;
        rv := ChargeAt(res, tracers, i, rrtime);
        return;
      }
    }
  }

  /** Charges the tracer at position `m`; -1 exactly when it ends above capacity. */
  method ChargeAt(res: Node<Alloc>, tracers: seq<Tracer>, m: nat, rrtime: nat) returns (rv: int)
    requires rrtime > 0 && AllConsistent(tracers) && DistinctTracers(tracers) && m < |tracers|
    modifies res`item, tracers
    ensures AllConsistent(tracers) && rv >= -1
    ensures EffectivePeriod(res.item.attr, rrtime) > 0 && res.item == old(res.item).(tracer := tracers[m])
    ensures LedgersOf(tracers)
      == old(LedgersOf(tracers))[m := Charge(old(LedgersOf(tracers))[m], res.item.attr, rrtime)]
    ensures rv == -1 <==> LoadOf(LedgersOf(tracers)[m]) > 1.0
  {
    hide Score, Charge, Consistent, LoadOf;
    EffectivePeriodPositive(res.item.attr, rrtime);
    ghost var ls := LedgersOf(tracers);
    RejectedIff(ls[m], res.item.attr, rrtime);
    rv := Place(res, tracers[m], tracers, rrtime, m);
  }

  /** The number of bits set. */
  function Weight(mask: Bitmask): nat {
    if mask == [] then 0 else Weight(mask[..|mask|-1]) + if mask[|mask|-1] then 1 else 0
  }

  /** Only bit `i` is set. */
  predicate OnlyBit(mask: Bitmask, i: int) {
    0 <= i < |mask| && forall j :: 0 <= j < |mask| ==> (mask[j] <==> j == i)
  }

  lemma {:induction false} NoBits(mask: Bitmask)
    ensures Weight(mask) == 0 <==> forall j :: 0 <= j < |mask| ==> !mask[j]
  {
    if mask != [] {
      NoBits(mask[..|mask|-1]);
    }
  }

  /** The weight is 1 exactly when a single CPU is set. */
  lemma {:induction false} OneBit(mask: Bitmask)
    ensures Weight(mask) == 1 <==> exists i :: 0 <= i < |mask| && OnlyBit(mask, i)
  {
    if mask != [] {
      var n := |mask| - 1;
      OneBit(mask[..n]);
      NoBits(mask[..n]);
      if mask[n] {
        assert OnlyBit(mask, n) <==> Weight(mask[..n]) == 0;
      } else {
        if i :| 0 <= i < n && OnlyBit(mask[..n], i) {
          assert OnlyBit(mask, i);
        }
        if i :| 0 <= i < |mask| && OnlyBit(mask, i) {
          assert OnlyBit(mask[..n], i);
        }
      }
    }
  }

  /** An item whose mask has one CPU is put on its tracer, `m`, charged there, and fixed; false where the source
      ends the program because there is none or the plan does not fit. As long as it fits, no tracer leaves its
      capacity. */
  method AddTracerFix(res: Node<Alloc>, mask: Bitmask, tracers: seq<Tracer>, rrtime: nat)
    returns (fits: bool, ghost m: int)
    requires rrtime > 0 && AllConsistent(tracers) && DistinctTracers(tracers)
    modifies res`item, tracers
    ensures AllConsistent(tracers) && -1 <= m < |tracers| && EffectivePeriod(res.item.attr, rrtime) > 0
    ensures Weight(mask) != 1 ==> m == -1 && fits
    ensures m == -1 ==> res.item == old(res.item) && LedgersOf(tracers) == old(LedgersOf(tracers))
    ensures Weight(mask) == 1 ==>
      && (m == -1 <==> forall k :: 0 <= k < |tracers| ==> !IsBitSet(mask, MainCPU(tracers[k])))
      && (fits <==> m >= 0 && LoadOf(LedgersOf(tracers)[m]) <= 1.0)
    ensures m >= 0 ==>
      && IsBitSet(mask, MainCPU(tracers[m])) && (forall k :: 0 <= k < m ==> !IsBitSet(mask, MainCPU(tracers[k])))
      && res.item == old(res.item).(tracer := tracers[m], fixed := fits || old(res.item).fixed)
      && LedgersOf(tracers) == old(LedgersOf(tracers))[m := Charge(old(LedgersOf(tracers))[m], res.item.attr, rrtime)]
    ensures fits ==> CapacityKept(old(LedgersOf(tracers)), LedgersOf(tracers))
  {
    hide Charge, Score, Consistent, MainCPU, LoadOf;
    EffectivePeriodPositive(res.item.attr, rrtime);
    fits, m := true, -1;
    if Weight(mask) == 1 {
      var rv;
      rv, m := AddTracer(res, mask, -1, tracers, rrtime);
      if 0 > rv {
        return false, m;
      }
      ghost var ls := LedgersOf(tracers);
      res.item := res.item.(fixed := true);
      assert LedgersOf(tracers) == ls;
    }
  }
}
