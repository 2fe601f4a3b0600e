/** The admission plan of `src/orchestrator/adaptive.c`: resource allocations are sorted, then
    charged to the best-fitting tracers. */
module Plan {
  import opened Ledgers
  import opened Resources
  import opened Sums
  import opened ListSort
  import opened Comparators

  /** A resource allocation, `resAlloc_t`: what an item asks for and the tracer it got. */
  datatype Alloc = Alloc(attr: Attr, affinity: int, fixed: bool, tracer: Tracer?)

  ghost predicate DistinctTracers(tracers: seq<Tracer>) {
    forall i, j :: 0 <= i < j < |tracers| ==> tracers[i] != tracers[j]
  }

  ghost function ItemsOf(r: seq<Node<Alloc>>): (items: seq<Alloc>)
    reads r`item
    ensures |items| == |r| && forall i :: 0 <= i < |items| ==> items[i] == r[i].item
  {
    if r == [] then [] else ItemsOf(r[..|r|-1]) + [r[|r|-1].item]
  }

  // ---------------------------------------------------------------------------------------
  // What a pass does to items and ledgers
  // ---------------------------------------------------------------------------------------

  /** The share newly placed on tracer `t` between two states of the items. */
  ghost function NewShare(before: seq<Alloc>, after: seq<Alloc>, t: Tracer, rrtime: nat): real
    requires |before| == |after| && rrtime > 0
  {
    if before == [] then 0.0
    else
      var n := |before| - 1;
      EffectivePeriodPositive(before[n].attr, rrtime);
      NewShare(before[..n], after[..n], t, rrtime)
      + if before[n].tracer == null && after[n].tracer == t then Share(before[n].attr, rrtime) else 0.0
  }

  /** Nothing is placed between equal states. */
  lemma {:induction false} NothingNew(items: seq<Alloc>, t: Tracer, rrtime: nat)
    requires rrtime > 0
    ensures NewShare(items, items, t, rrtime) == 0.0
  {
    if items != [] {
      NothingNew(items[..|items|-1], t, rrtime);
    }
  }

  /** Placing one more item adds its share to its tracer and to no other. */
  lemma {:induction false} OneMorePlaced(before: seq<Alloc>, after: seq<Alloc>, i: nat, u: Tracer, t: Tracer,
                                         rrtime: nat)
    requires |before| == |after| && rrtime > 0 && i < |before|
    requires before[i].tracer == null && after[i].tracer == null
    ensures EffectivePeriod(before[i].attr, rrtime) > 0
    ensures NewShare(before, after[i := after[i].(tracer := u)], t, rrtime)
         == NewShare(before, after, t, rrtime) + if t == u then Share(before[i].attr, rrtime) else 0.0
  {
    EffectivePeriodPositive(before[i].attr, rrtime);
    var n := |before| - 1;
    var after' := after[i := after[i].(tracer := u)];
    if i == n {
      assert after'[..n] == after[..n];
    } else {
      OneMorePlaced(before[..n], after[..n], i, u, t, rrtime);
      assert after'[..n] == after[..n][i := after[i].(tracer := u)];
    }
  }

  /** Whether a pass looks at an item: it needs a runtime, and in the first pass a period. */
  predicate Eligible(a: Alloc, needPeriod: bool) {
    a.tracer == null && a.attr.runtime != 0 && (needPeriod ==> a.attr.period != 0)
  }

  /** No tracer takes the item. */
  ghost predicate RejectedByAll(ledgers: seq<Ledger>, a: Alloc, rrtime: nat)
    requires rrtime > 0
  {
    EffectivePeriodPositive(a.attr, rrtime);
    forall k :: 0 <= k < |ledgers| ==> Score(ledgers[k], a.attr, rrtime) < 0
  }

  /** An item only gets a tracer, that of its CPU if its affinity is fixed, and only while it has none
      and its runtime is known. */
  ghost predicate OnlyPlaces(before: seq<Alloc>, after: seq<Alloc>, tracers: seq<Tracer>) {
    && |before| == |after|
    && forall i :: 0 <= i < |before| ==>
         after[i] == before[i]
         || (before[i].tracer == null && before[i].attr.runtime != 0 && after[i].tracer in tracers
             && (before[i].affinity >= 0 ==> after[i].tracer == TracerFor(tracers, before[i].affinity))
             && after[i] == before[i].(tracer := after[i].tracer))
  }

  /** Each tracer carries its old load plus the shares placed on it. */
  ghost predicate Charged(tracers: seq<Tracer>, ls: seq<Ledger>, ls': seq<Ledger>, before: seq<Alloc>,
                          after: seq<Alloc>, rrtime: nat)
    requires rrtime > 0
  {
    && |tracers| == |ls| == |ls'| && |before| == |after|
    && forall k :: 0 <= k < |ls| ==>
         Consistent(ls[k]) && Consistent(ls'[k]) &&
           LoadOf(ls'[k]) == LoadOf(ls[k]) + NewShare(before, after, tracers[k], rrtime)
  }

  /** Loads only grow. */
  ghost predicate Grown(ls: seq<Ledger>, ls': seq<Ledger>) {
    |ls| == |ls'| && forall k :: 0 <= k < |ls| ==> LoadOf(ls[k]) <= LoadOf(ls'[k])
  }

  /** Every tracer within capacity before is within capacity after. */
  ghost predicate CapacityKept(ls: seq<Ledger>, ls': seq<Ledger>) {
    |ls| == |ls'| && forall k :: 0 <= k < |ls| && LoadOf(ls[k]) <= 1.0 ==> LoadOf(ls'[k]) <= 1.0
  }

  /** An item yet to be charged names this tracer's CPU and will be put there unchecked. */
  ghost predicate Awaited(tracers: seq<Tracer>, items: seq<Alloc>, t: Tracer) {
    exists i :: 0 <= i < |items| && items[i].tracer == null && items[i].attr.runtime != 0
      && items[i].affinity >= 0 && TracerFor(tracers, items[i].affinity) == t
  }

  /** Every tracer within capacity before, unless an item with a fixed affinity awaits it, is within
      capacity after. */
  ghost predicate CapacityGuarded(tracers: seq<Tracer>, ls: seq<Ledger>, ls': seq<Ledger>, items: seq<Alloc>) {
    |tracers| == |ls| == |ls'|
    && forall k :: 0 <= k < |ls| && LoadOf(ls[k]) <= 1.0 && !Awaited(tracers, items, tracers[k]) ==>
         LoadOf(ls'[k]) <= 1.0
  }

  /** The eligible ones of the first `n` items that are still unplaced fit nowhere. */
  ghost predicate LeftoversRejected(ls: seq<Ledger>, items: seq<Alloc>, n: nat, needPeriod: bool, rrtime: nat)
    requires rrtime > 0
  {
    forall i :: 0 <= i < |items| && i < n && Eligible(items[i], needPeriod) && items[i].affinity < 0
      ==> RejectedByAll(ls, items[i], rrtime)
  }

  /** The eligible ones of the first `n` items that name a CPU and are still unplaced name one without a tracer. */
  ghost predicate HomelessLeft(tracers: seq<Tracer>, items: seq<Alloc>, n: nat, needPeriod: bool) {
    forall i :: 0 <= i < |items| && i < n && Eligible(items[i], needPeriod) && items[i].affinity >= 0
      ==> TracerFor(tracers, items[i].affinity) == null
  }

  /** Only items that some tracer would have taken from the start get placed. */
  ghost predicate PlacedHadRoom(ls: seq<Ledger>, before: seq<Alloc>, after: seq<Alloc>, rrtime: nat)
    requires rrtime > 0
  {
    |before| == |after|
    && forall i :: 0 <= i < |before| && after[i] != before[i] && before[i].affinity < 0 ==>
         !RejectedByAll(ls, before[i], rrtime)
  }

  /** The state of a pass after its first `n` items. */
  ghost predicate PassState(tracers: seq<Tracer>, ls: seq<Ledger>, ls': seq<Ledger>, before: seq<Alloc>,
                            after: seq<Alloc>, n: nat, needPeriod: bool, rrtime: nat)
    requires rrtime > 0
  {
    && Charged(tracers, ls, ls', before, after, rrtime) && Grown(ls, ls')
    && OnlyPlaces(before, after, tracers)
    && (forall i :: n <= i < |before| ==> after[i] == before[i])
    && PlacedHadRoom(ls, before, after, rrtime)
    && CapacityGuarded(tracers, ls, ls', before)
    && LeftoversRejected(ls', after, n, needPeriod, rrtime) && HomelessLeft(tracers, after, n, needPeriod)
  }

  lemma PassStart(tracers: seq<Tracer>, ls: seq<Ledger>, items: seq<Alloc>, needPeriod: bool, rrtime: nat)
    requires rrtime > 0 && |tracers| == |ls| && forall k :: 0 <= k < |ls| ==> Consistent(ls[k])
    ensures PassState(tracers, ls, ls, items, items, 0, needPeriod, rrtime)
  {
    forall k | 0 <= k < |ls| ensures NewShare(items, items, tracers[k], rrtime) == 0.0 {
      NothingNew(items, tracers[k], rrtime);
    }
  }

  /** An item that is not eligible, or fits nowhere, is passed over. */
  lemma PassSkip(tracers: seq<Tracer>, ls: seq<Ledger>, ls': seq<Ledger>, before: seq<Alloc>, after: seq<Alloc>,
                 n: nat, needPeriod: bool, rrtime: nat)
    requires rrtime > 0 && PassState(tracers, ls, ls', before, after, n, needPeriod, rrtime) && n < |before|
    requires Eligible(after[n], needPeriod) && after[n].affinity < 0 ==> RejectedByAll(ls', after[n], rrtime)
    requires Eligible(after[n], needPeriod) && after[n].affinity >= 0 ==> TracerFor(tracers, after[n].affinity) == null
    ensures PassState(tracers, ls, ls', before, after, n + 1, needPeriod, rrtime)
  {
    hide Charged, RejectedByAll, TracerFor;
  }

  /** An item whose runtime is known is charged to tracer `m`. */
  lemma PassPlace(tracers: seq<Tracer>, ls: seq<Ledger>, ls': seq<Ledger>, before: seq<Alloc>, after: seq<Alloc>,
                  n: nat, m: nat, needPeriod: bool, rrtime: nat)
    requires rrtime > 0 && PassState(tracers, ls, ls', before, after, n, needPeriod, rrtime) && n < |before|
    requires DistinctTracers(tracers) && m < |tracers| && Eligible(after[n], needPeriod)
    requires EffectivePeriod(after[n].attr, rrtime) > 0
    requires after[n].affinity < 0 ==> Score(ls'[m], after[n].attr, rrtime) >= 0
    requires after[n].affinity >= 0 ==> tracers[m] == TracerFor(tracers, after[n].affinity)
    ensures PassState(tracers, ls, ls'[m := Charge(ls'[m], after[n].attr, rrtime)], before,
                      after[n := after[n].(tracer := tracers[m])], n + 1, needPeriod, rrtime)
  {
    hide Score, Charge, LoadOf, Consistent, NewShare, RejectedByAll, TracerFor, Awaited, Charged, Grown;
    hide LeftoversRejected;
    var a := after[n].attr;
    var ls'' := ls'[m := Charge(ls'[m], a, rrtime)];
    PlacedCharged(tracers, ls, ls', before, after, n, m, rrtime);
    PlacedGrown(tracers, ls, ls', before, after, m, a, rrtime);
    GuardedPlace(tracers, ls, ls', before, n, m, rrtime);
    StillRejected(ls', ls'', after, n, needPeriod, rrtime);
    PlacedRejected(ls'', after, n, tracers[m], needPeriod, rrtime);
    if after[n].affinity < 0 {
      RoomFromStart(ls, ls', after[n], m, rrtime);
    }
  }

  /** Loads grow on, and the ledgers stay consistent. */
  lemma PlacedGrown(tracers: seq<Tracer>, ls: seq<Ledger>, ls': seq<Ledger>, before: seq<Alloc>, after: seq<Alloc>,
                    m: nat, a: Attr, rrtime: nat)
    requires rrtime > 0 && Charged(tracers, ls, ls', before, after, rrtime) && Grown(ls, ls')
    requires m < |tracers| && EffectivePeriod(a, rrtime) > 0
    ensures var ls'' := ls'[m := Charge(ls'[m], a, rrtime)];
      && Grown(ls', ls'') && Grown(ls, ls'')
      && forall k :: 0 <= k < |ls'| ==> Consistent(ls[k]) && Consistent(ls'[k]) && Consistent(ls''[k])
  {
    hide NewShare;
    ChargeLoad(ls'[m], a, rrtime);
    ShareNonNegative(a, rrtime);
  }

  /** A placed item is no leftover. */
  lemma PlacedRejected(ls: seq<Ledger>, items: seq<Alloc>, n: nat, t: Tracer, needPeriod: bool, rrtime: nat)
    requires rrtime > 0 && LeftoversRejected(ls, items, n, needPeriod, rrtime) && n < |items|
    ensures LeftoversRejected(ls, items[n := items[n].(tracer := t)], n + 1, needPeriod, rrtime)
  {
    hide RejectedByAll;
  }

  /** A tracer that takes an item now would have taken it from the start. */
  lemma RoomFromStart(ls: seq<Ledger>, ls': seq<Ledger>, a: Alloc, m: nat, rrtime: nat)
    requires rrtime > 0 && Grown(ls, ls') && a.attr.runtime != 0 && EffectivePeriod(a.attr, rrtime) > 0
    requires forall k :: 0 <= k < |ls| ==> Consistent(ls[k]) && Consistent(ls'[k])
    requires m < |ls'| && Score(ls'[m], a.attr, rrtime) >= 0
    ensures !RejectedByAll(ls, a, rrtime)
  {
    if RejectedByAll(ls, a, rrtime) {
      RejectedStays(ls, ls', a, rrtime);
    }
  }

  /** A charge keeps the capacity of a tracer that nobody awaits. */
  lemma GuardedPlace(tracers: seq<Tracer>, ls: seq<Ledger>, ls': seq<Ledger>, before: seq<Alloc>, n: nat, m: nat,
                     rrtime: nat)
    requires rrtime > 0 && CapacityGuarded(tracers, ls, ls', before) && n < |before| && m < |tracers|
    requires before[n].tracer == null && before[n].attr.runtime != 0 && EffectivePeriod(before[n].attr, rrtime) > 0
    requires Consistent(ls'[m])
    requires before[n].affinity < 0 ==> Score(ls'[m], before[n].attr, rrtime) >= 0
    requires before[n].affinity >= 0 ==> tracers[m] == TracerFor(tracers, before[n].affinity)
    ensures CapacityGuarded(tracers, ls, ls'[m := Charge(ls'[m], before[n].attr, rrtime)], before)
  {
    hide Charge, Score, Consistent, LoadOf, TracerFor;
    if before[n].affinity < 0 {
      FittingScore(ls'[m], before[n].attr, rrtime);
    } else {
      assert Awaited(tracers, before, tracers[m]);
    }
  }

  lemma PlacedCharged(tracers: seq<Tracer>, ls: seq<Ledger>, ls': seq<Ledger>, before: seq<Alloc>, after: seq<Alloc>,
                      n: nat, m: nat, rrtime: nat)
    requires rrtime > 0 && Charged(tracers, ls, ls', before, after, rrtime) && n < |before|
    requires DistinctTracers(tracers) && m < |tracers| && after[n].attr.runtime != 0
    requires before[n] == after[n] && after[n].tracer == null && EffectivePeriod(after[n].attr, rrtime) > 0
    ensures Charged(tracers, ls, ls'[m := Charge(ls'[m], after[n].attr, rrtime)], before,
                    after[n := after[n].(tracer := tracers[m])], rrtime)
  {
    var a := after[n].attr;
    ChargeLoad(ls'[m], a, rrtime);
    forall k | 0 <= k < |ls|
      ensures NewShare(before, after[n := after[n].(tracer := tracers[m])], tracers[k], rrtime)
           == NewShare(before, after, tracers[k], rrtime) + if k == m then Share(a, rrtime) else 0.0
    {
      OneMorePlaced(before, after, n, tracers[m], tracers[k], rrtime);
    }
    hide Charge, NewShare, LoadOf;
  }

  /** Items rejected earlier stay rejected, because loads only grow. */
  lemma StillRejected(ls: seq<Ledger>, ls': seq<Ledger>, items: seq<Alloc>, n: nat, needPeriod: bool, rrtime: nat)
    requires rrtime > 0 && Grown(ls, ls') && LeftoversRejected(ls, items, n, needPeriod, rrtime)
    requires forall k :: 0 <= k < |ls| ==> Consistent(ls[k]) && Consistent(ls'[k])
    ensures LeftoversRejected(ls', items, n, needPeriod, rrtime)
  {
    forall i | 0 <= i < |items| && i < n && Eligible(items[i], needPeriod) && items[i].affinity < 0
      ensures RejectedByAll(ls', items[i], rrtime)
    {
      RejectedStays(ls, ls', items[i], rrtime);
    }
  }

  lemma RejectedStays(ls: seq<Ledger>, ls': seq<Ledger>, a: Alloc, rrtime: nat)
    requires rrtime > 0 && Grown(ls, ls') && a.attr.runtime != 0 && RejectedByAll(ls, a, rrtime)
    requires forall k :: 0 <= k < |ls| ==> Consistent(ls[k]) && Consistent(ls'[k])
    ensures RejectedByAll(ls', a, rrtime)
  {
    EffectivePeriodPositive(a.attr, rrtime);
    forall k | 0 <= k < |ls'| ensures Score(ls'[k], a.attr, rrtime) < 0 {
      RejectionIsMonotone(ls[k], ls'[k], a.attr, rrtime);
    }
  }

  /** Shares placed in two stages add up. */
  lemma {:induction false} PlacedInStages(first: seq<Alloc>, second: seq<Alloc>, third: seq<Alloc>,
                                          tracers: seq<Tracer>, t: Tracer, rrtime: nat)
    requires rrtime > 0 && OnlyPlaces(first, second, tracers) && OnlyPlaces(second, third, tracers)
    ensures NewShare(first, third, t, rrtime) == NewShare(first, second, t, rrtime) + NewShare(second, third, t, rrtime)
  {
    if first != [] {
      var n := |first| - 1;
      PlacedInStages(first[..n], second[..n], third[..n], tracers, t, rrtime);
    }
  }

  /** What the two charging passes achieve together. */
  ghost predicate Planned(tracers: seq<Tracer>, ls: seq<Ledger>, ls': seq<Ledger>, before: seq<Alloc>,
                          after: seq<Alloc>, rrtime: nat)
    requires rrtime > 0
  {
    // every load is the old load plus the shares of the items placed there, each charged once
    && Charged(tracers, ls, ls', before, after, rrtime) && OnlyPlaces(before, after, tracers)
    // only an item with a fixed affinity can take a tracer over its capacity
    && CapacityGuarded(tracers, ls, ls', before)
    // an item with a known runtime that is left over fits nowhere in the final state
    && LeftoversRejected(ls', after, |after|, false, rrtime)
    // and one with a fixed affinity names a CPU without a tracer
    && HomelessLeft(tracers, after, |after|, false)
  }

  /** The second pass completes the first; what the first one had to leave stays unplaced. */
  lemma PassesCompose(tracers: seq<Tracer>, ls: seq<Ledger>, ls': seq<Ledger>, ls'': seq<Ledger>,
                      first: seq<Alloc>, second: seq<Alloc>, third: seq<Alloc>, rrtime: nat)
    requires rrtime > 0
    requires PassState(tracers, ls, ls', first, second, |first|, true, rrtime)
    requires PassState(tracers, ls', ls'', second, third, |second|, false, rrtime)
    ensures Planned(tracers, ls, ls'', first, third, rrtime)
    ensures forall i :: 0 <= i < |second| && Eligible(second[i], true) && second[i].affinity < 0 ==>
      third[i] == second[i]
  {
    forall k | 0 <= k < |tracers|
      ensures NewShare(first, third, tracers[k], rrtime)
           == NewShare(first, second, tracers[k], rrtime) + NewShare(second, third, tracers[k], rrtime)
    {
      PlacedInStages(first, second, third, tracers, tracers[k], rrtime);
    }
    hide Score, NewShare, LoadOf, Consistent, RejectedByAll;
  }

  // ---------------------------------------------------------------------------------------
  // One turn after the other
  // ---------------------------------------------------------------------------------------

  /** What the search returns for an item; no CPU counts as the running one. */
  ghost function SoughtFor(tracers: seq<Tracer>, ls: seq<Ledger>, a: Alloc, rrtime: nat): Tracer?
    requires rrtime > 0 && |tracers| == |ls|
  {
    EffectivePeriodPositive(a.attr, rrtime);
    Sought(tracers, ls, a.attr, a.affinity, -1, rrtime)
  }

  /** The turn of one item: if it looks for a tracer and the search finds one, it is recorded and charged;
      else nothing changes. */
  ghost predicate Turn(tracers: seq<Tracer>, ls: seq<Ledger>, ls': seq<Ledger>, a: Alloc, a': Alloc, looks: bool,
                       rrtime: nat)
    requires rrtime > 0 && |tracers| == |ls|
  {
    var t := if looks then SoughtFor(tracers, ls, a, rrtime) else null;
    EffectivePeriodPositive(a.attr, rrtime);
    && a' == (if t == null then a else a.(tracer := t))
    && |ls'| == |ls|
    && forall k :: 0 <= k < |ls| ==> ls'[k] == if tracers[k] == t then Charge(ls[k], a.attr, rrtime) else ls[k]
  }

  /** The first `n` turns of a pass, each with the ledgers the turn before left. */
  ghost predicate Run(tracers: seq<Tracer>, trail: seq<seq<Ledger>>, before: seq<Alloc>, after: seq<Alloc>, n: nat,
                      needPeriod: bool, rrtime: nat)
    requires rrtime > 0
  {
    && n <= |before| == |after| && |trail| == n + 1 && (forall i :: 0 <= i <= n ==> |trail[i]| == |tracers|)
    && (forall i :: n <= i < |before| ==> after[i] == before[i])
    && forall i :: 0 <= i < n ==>
         Turn(tracers, trail[i], trail[i+1], before[i], after[i], Eligible(before[i], needPeriod), rrtime)
  }

  lemma RunStarts(tracers: seq<Tracer>, ls: seq<Ledger>, items: seq<Alloc>, needPeriod: bool, rrtime: nat)
    requires rrtime > 0 && |tracers| == |ls|
    ensures Run(tracers, [ls], items, items, 0, needPeriod, rrtime)
  {
  }

  lemma RunGoesOn(tracers: seq<Tracer>, trail: seq<seq<Ledger>>, ls: seq<Ledger>, before: seq<Alloc>, after: seq<Alloc>,
                  a: Alloc, n: nat, needPeriod: bool, rrtime: nat)
    requires rrtime > 0 && Run(tracers, trail, before, after, n, needPeriod, rrtime) && n < |before|
    requires Turn(tracers, trail[n], ls, before[n], a, Eligible(before[n], needPeriod), rrtime)
    ensures Run(tracers, trail + [ls], before, after[n := a], n + 1, needPeriod, rrtime)
  {
    hide SoughtFor, Charge, Eligible;
    var trail', after' := trail + [ls], after[n := a];
    forall i | 0 <= i < n + 1
      ensures Turn(tracers, trail'[i], trail'[i+1], before[i], after'[i], Eligible(before[i], needPeriod), rrtime)
    {
      if i < n {
        assert Turn(tracers, trail[i], trail[i+1], before[i], after[i], Eligible(before[i], needPeriod), rrtime);
      }
    }
  }

  // ---------------------------------------------------------------------------------------
  // The passes
  // ---------------------------------------------------------------------------------------

  /** Adds a task to the tracer at position `m`. */
  method AddTo(trc: Tracer, a: Attr, rrtime: nat, ghost tracers: seq<Tracer>, ghost m: nat) returns (rv: int)
    requires EffectivePeriod(a, rrtime) > 0 && AllConsistent(tracers) && DistinctTracers(tracers)
    requires m < |tracers| && tracers[m] == trc
    modifies trc
    ensures AllConsistent(tracers) && rv == Score(old(LedgersOf(tracers))[m], a, rrtime)
    ensures LedgersOf(tracers) == old(LedgersOf(tracers))[m := Charge(old(LedgersOf(tracers))[m], a, rrtime)]
  {
    hide Score, Charge, Consistent;
    ghost var ls := LedgersOf(tracers);
    rv := CheckUvalue(trc, a, rrtime, true);
    ChargeLoad(ls[m], a, rrtime);
    forall i | 0 <= i < |tracers| ensures LedgersOf(tracers)[i] == if i == m then Charge(ls[m], a, rrtime) else ls[i] {
      assert i != m ==> tracers[i] != trc;
    }
  }

  /** Charges the tracer at position `m` with an item and records it. */
  method Place(res: Node<Alloc>, trc: Tracer, tracers: seq<Tracer>, rrtime: nat, ghost m: nat) returns (rv: int)
    requires rrtime > 0 && AllConsistent(tracers) && DistinctTracers(tracers) && m < |tracers| && tracers[m] == trc
    requires EffectivePeriod(res.item.attr, rrtime) > 0
    modifies res`item, tracers
    ensures AllConsistent(tracers) && res.item == old(res.item).(tracer := trc)
    ensures LedgersOf(tracers)
      == old(LedgersOf(tracers))[m := Charge(old(LedgersOf(tracers))[m], res.item.attr, rrtime)]
    ensures rv == Score(old(LedgersOf(tracers))[m], res.item.attr, rrtime)
  {
    hide Score, Charge, Consistent, DistinctTracers;
    rv := AddTo(trc, res.item.attr, rrtime, tracers, m);
    ghost var ls := LedgersOf(tracers);
    res.item := res.item.(tracer := trc);
    assert LedgersOf(tracers) == ls;
  }

  /** One item of a pass: looks for a tracer and, if there is one, charges it. */
  method PlanItem(res: Node<Alloc>, tracers: seq<Tracer>, needPeriod: bool, rrtime: nat) returns (ghost m: int)
    requires rrtime > 0 && AllConsistent(tracers) && DistinctTracers(tracers)
    modifies res`item, tracers
    ensures m < |tracers| && AllConsistent(tracers)
    ensures EffectivePeriod(res.item.attr, rrtime) > 0
    ensures m < 0 ==>
      && res.item == old(res.item) && LedgersOf(tracers) == old(LedgersOf(tracers))
      && (Eligible(res.item, needPeriod) && res.item.affinity < 0 ==>
           RejectedByAll(LedgersOf(tracers), res.item, rrtime))
      && (Eligible(res.item, needPeriod) && res.item.affinity >= 0 ==> TracerFor(tracers, res.item.affinity) == null)
    ensures m >= 0 ==>
      && Eligible(old(res.item), needPeriod) && res.item == old(res.item).(tracer := tracers[m])
      && LedgersOf(tracers) == old(LedgersOf(tracers))[m := Charge(old(LedgersOf(tracers))[m], res.item.attr, rrtime)]
      && (res.item.affinity < 0 ==> BestFit(Scores(old(LedgersOf(tracers)), res.item.attr, rrtime), |tracers|, m))
      && (res.item.affinity >= 0 ==> tracers[m] == TracerFor(tracers, res.item.affinity))
    ensures Turn(tracers, old(LedgersOf(tracers)), LedgersOf(tracers), old(res.item), res.item,
                 Eligible(old(res.item), needPeriod), rrtime)
  {
    hide Score, Charge, Consistent, SearchResult, Sought, RejectedByAll, DistinctTracers, BestFit, Scores, TracerFor;
    hide Turn;
    EffectivePeriodPositive(res.item.attr, rrtime);
    m := -1;
    ghost var ls, a := LedgersOf(tracers), res.item;
    if res.item.tracer == null && res.item.attr.runtime != 0 && (needPeriod ==> res.item.attr.period != 0) {
      var trc := CheckPeriod(tracers, res.item.attr, res.item.affinity, -1, rrtime);
      if trc != null {
        m := PlaceAt(tracers, ls, trc, res.item.attr, res.item.affinity, rrtime);
        var _ := Place(res, trc, tracers, rrtime, m);
        TurnTaken(tracers, ls, a, m, rrtime);
      } else {
        TurnPassed(tracers, ls, a, true, rrtime);
        if res.item.affinity < 0 {
          NothingFits(tracers, ls, res.item, rrtime);
        }
      }
    } else {
      TurnPassed(tracers, ls, a, false, rrtime);
    }
  }

  lemma TurnTaken(tracers: seq<Tracer>, ls: seq<Ledger>, a: Alloc, m: nat, rrtime: nat)
    requires rrtime > 0 && |tracers| == |ls| && DistinctTracers(tracers) && EffectivePeriod(a.attr, rrtime) > 0
    requires m < |tracers| && SoughtFor(tracers, ls, a, rrtime) == tracers[m]
    ensures Turn(tracers, ls, ls[m := Charge(ls[m], a.attr, rrtime)], a, a.(tracer := tracers[m]), true, rrtime)
  {
    hide SoughtFor, Charge;
  }

  lemma TurnPassed(tracers: seq<Tracer>, ls: seq<Ledger>, a: Alloc, looks: bool, rrtime: nat)
    requires rrtime > 0 && |tracers| == |ls| && (looks ==> SoughtFor(tracers, ls, a, rrtime) == null)
    ensures Turn(tracers, ls, ls, a, a, looks, rrtime)
  {
    hide SoughtFor, Charge;
  }

  lemma BestFitFits(ls: seq<Ledger>, a: Attr, m: nat, rrtime: nat)
    requires EffectivePeriod(a, rrtime) > 0 && m < |ls| && BestFit(Scores(ls, a, rrtime), |ls|, m)
    ensures Score(ls[m], a, rrtime) >= 0
  {
    assert Scores(ls, a, rrtime)[m] == Score(ls[m], a, rrtime);
  }

  lemma NothingFits(tracers: seq<Tracer>, ls: seq<Ledger>, a: Alloc, rrtime: nat)
    requires rrtime > 0 && EffectivePeriod(a.attr, rrtime) > 0 && |tracers| == |ls|
    requires SearchResult(tracers, ls, null, a.attr, rrtime)
    ensures RejectedByAll(ls, a, rrtime)
  {
    forall k | 0 <= k < |ls| ensures Score(ls[k], a.attr, rrtime) < 0 {
      assert Scores(ls, a.attr, rrtime)[k] < 0;
    }
  }

  /** The position of the tracer a search returned. */
  lemma PlaceAt(tracers: seq<Tracer>, ls: seq<Ledger>, trc: Tracer, a: Attr, affinity: int, rrtime: nat)
    returns (m: nat)
    requires EffectivePeriod(a, rrtime) > 0 && |tracers| == |ls| && trc in tracers
    requires affinity < 0 ==> SearchResult(tracers, ls, trc, a, rrtime)
    ensures m < |tracers| && tracers[m] == trc
    ensures affinity < 0 ==> BestFit(Scores(ls, a, rrtime), |ls|, m) && Score(ls[m], a, rrtime) >= 0
  {
    if affinity < 0 {
      var scores := Scores(ls, a, rrtime);
      m :| 0 <= m < |tracers| && tracers[m] == trc && BestFit(scores, |scores|, m);
      assert scores[m] == Score(ls[m], a, rrtime);
    } else {
      m :| 0 <= m < |tracers| && tracers[m] == trc;
    }
  }

  /** One step of a pass, seen on the whole list. */
  method PlanTurn(res: Node<Alloc>, tracers: seq<Tracer>, needPeriod: bool, rrtime: nat,
                  ghost r: seq<Node<Alloc>>, ghost i: nat, ghost ls: seq<Ledger>, ghost before: seq<Alloc>)
    requires rrtime > 0 && AllConsistent(tracers) && DistinctTracers(tracers)
    requires NoDuplicates(r) && i < |r| == |before| && r[i] == res
    requires PassState(tracers, ls, LedgersOf(tracers), before, ItemsOf(r), i, needPeriod, rrtime)
    modifies res`item, tracers
    ensures AllConsistent(tracers)
    ensures PassState(tracers, ls, LedgersOf(tracers), before, ItemsOf(r), i + 1, needPeriod, rrtime)
    ensures ItemsOf(r) == old(ItemsOf(r))[i := res.item]
    ensures Turn(tracers, old(LedgersOf(tracers)), LedgersOf(tracers), old(res.item), res.item,
                 Eligible(old(res.item), needPeriod), rrtime)
  {
    hide Charge, Score, Consistent, RejectedByAll, PassState, Eligible, BestFit, Scores, TracerFor, Turn;
    ghost var ls', after := LedgersOf(tracers), ItemsOf(r);
    ghost var m := PlanItem(res, tracers, needPeriod, rrtime);
    if m < 0 {
      assert ItemsOf(r) == after;
      PassSkip(tracers, ls, ls', before, after, i, needPeriod, rrtime);
    } else {
      assert ItemsOf(r) == after[i := after[i].(tracer := tracers[m])];
      if after[i].affinity < 0 {
        BestFitFits(ls', after[i].attr, m, rrtime);
      }
      PassPlace(tracers, ls, ls', before, after, i, m, needPeriod, rrtime);
    }
  }

  /** A pass after `n` turns. */
  ghost predicate Passing(tracers: seq<Tracer>, trail: seq<seq<Ledger>>, ls': seq<Ledger>, before: seq<Alloc>,
                          after: seq<Alloc>, n: nat, needPeriod: bool, rrtime: nat)
    requires rrtime > 0
  {
    && Run(tracers, trail, before, after, n, needPeriod, rrtime) && trail[n] == ls'
    && PassState(tracers, trail[0], ls', before, after, n, needPeriod, rrtime)
  }

  /** It has not touched the items that follow. */
  lemma Underway(tracers: seq<Tracer>, trail: seq<seq<Ledger>>, ls': seq<Ledger>, before: seq<Alloc>, after: seq<Alloc>,
                 n: nat, needPeriod: bool, rrtime: nat)
    requires rrtime > 0 && Passing(tracers, trail, ls', before, after, n, needPeriod, rrtime) && n < |before|
    ensures |after| == |before| && after[n] == before[n] && |trail| == n + 1 && trail[n] == ls'
    ensures PassState(tracers, trail[0], ls', before, after, n, needPeriod, rrtime)
    ensures Run(tracers, trail, before, after, n, needPeriod, rrtime)
  {
    hide Turn, PassState;
  }

  /** The same step in its trail. */
  method PlanStep(res: Node<Alloc>, tracers: seq<Tracer>, needPeriod: bool, rrtime: nat,
                  ghost r: seq<Node<Alloc>>, ghost i: nat, ghost trail: seq<seq<Ledger>>, ghost before: seq<Alloc>)
    returns (ghost trail': seq<seq<Ledger>>)
    requires rrtime > 0 && AllConsistent(tracers) && DistinctTracers(tracers)
    requires NoDuplicates(r) && i < |r| == |before| && r[i] == res
    requires Passing(tracers, trail, LedgersOf(tracers), before, ItemsOf(r), i, needPeriod, rrtime)
    modifies res`item, tracers
    ensures AllConsistent(tracers) && |trail'| > 0 && |trail| > 0 && trail'[0] == trail[0]
    ensures Passing(tracers, trail', LedgersOf(tracers), before, ItemsOf(r), i + 1, needPeriod, rrtime)
  {
    hide Consistent, PassState, Turn, Eligible, Run;
    ghost var after := ItemsOf(r);
    assert after[i] == res.item;
    Underway(tracers, trail, LedgersOf(tracers), before, after, i, needPeriod, rrtime);
    PlanTurn(res, tracers, needPeriod, rrtime, r, i, trail[0], before);
    RunGoesOn(tracers, trail, LedgersOf(tracers), before, after, res.item, i, needPeriod, rrtime);
    trail' := trail + [LedgersOf(tracers)];
  }

  /** The first pass (`needPeriod`) or the second one over the whole list. */
  method PlanPass(head: Node?<Alloc>, tracers: seq<Tracer>, needPeriod: bool, rrtime: nat, ghost r: seq<Node<Alloc>>)
    returns (ghost trail: seq<seq<Ledger>>)
    requires rrtime > 0 && AllConsistent(tracers) && DistinctTracers(tracers) && IsList(head, r)
    modifies r`item, tracers
    ensures AllConsistent(tracers)
    ensures Run(tracers, trail, old(ItemsOf(r)), ItemsOf(r), |r|, needPeriod, rrtime)
    ensures trail[0] == old(LedgersOf(tracers)) && trail[|r|] == LedgersOf(tracers)
    ensures PassState(tracers, trail[0], LedgersOf(tracers), old(ItemsOf(r)), ItemsOf(r), |r|, needPeriod, rrtime)
  {
    hide Consistent, PassState, DistinctTracers, NoDuplicates, Turn, Eligible, Passing;
    ghost var ls, before := LedgersOf(tracers), ItemsOf(r);
    trail := [ls];
    PassBegins(tracers, before, needPeriod, rrtime);
    var res := head;
    ghost var i := 0;
    while res != null
      invariant i <= |r| && res == (if i < |r| then r[i] else null)
      invariant AllConsistent(tracers) && |trail| > 0 && trail[0] == ls
      invariant Passing(tracers, trail, LedgersOf(tracers), before, ItemsOf(r), i, needPeriod, rrtime)
      decreases |r| - i
    {
      trail := PlanStep(res, tracers, needPeriod, rrtime, r, i, trail, before);
      res := res.next;
      i := i + 1;
    }
    PassEnds(tracers, trail, LedgersOf(tracers), before, ItemsOf(r), needPeriod, rrtime);
  }

  lemma PassBegins(tracers: seq<Tracer>, items: seq<Alloc>, needPeriod: bool, rrtime: nat)
    requires rrtime > 0 && AllConsistent(tracers)
    ensures Passing(tracers, [LedgersOf(tracers)], LedgersOf(tracers), items, items, 0, needPeriod, rrtime)
  {
    hide PassState, Consistent, Turn;
    LedgersConsistent(tracers);
    PassStart(tracers, LedgersOf(tracers), items, needPeriod, rrtime);
    RunStarts(tracers, LedgersOf(tracers), items, needPeriod, rrtime);
  }

  lemma PassEnds(tracers: seq<Tracer>, trail: seq<seq<Ledger>>, ls': seq<Ledger>, before: seq<Alloc>,
                 after: seq<Alloc>, needPeriod: bool, rrtime: nat)
    requires rrtime > 0 && Passing(tracers, trail, ls', before, after, |before|, needPeriod, rrtime)
    ensures Run(tracers, trail, before, after, |before|, needPeriod, rrtime) && trail[|before|] == ls'
    ensures PassState(tracers, trail[0], ls', before, after, |before|, needPeriod, rrtime)
  {
    hide PassState, Turn;
  }

  lemma LedgersConsistent(tracers: seq<Tracer>)
    requires AllConsistent(tracers)
    ensures forall k :: 0 <= k < |tracers| ==> Consistent(LedgersOf(tracers)[k])
  {
  }

  // ---------------------------------------------------------------------------------------
  // Items without a known runtime
  // ---------------------------------------------------------------------------------------

  /** The tracer `grepTracer` holds after the first `n`, or -1: a lower load wins, and a harmonic one
      wins over a non-harmonic one with 20 percent slack. */
  function GrepAfter(ls: seq<Ledger>, n: nat): (best: int)
    requires n <= |ls|
    ensures -1 <= best < n
  {
    if n == 0 then -1
    else
      var best := GrepAfter(ls, n - 1);
      if ls[n-1].load < (if best < 0 then 1.0 else ls[best].load)
         || (best >= 0 && ls[n-1].load < ls[best].load * 1.2 && !ls[best].harmonic && ls[n-1].harmonic)
      then n - 1 else best
  }

  /** What `grepTracer` returns in this state. */
  ghost function Found(tracers: seq<Tracer>): Tracer?
    reads tracers
  {
    var best := GrepAfter(LedgersOf(tracers), |tracers|);
    if best < 0 then null else tracers[best]
  }

  method GrepTracer(tracers: seq<Tracer>) returns (ftrc: Tracer?)
    ensures ftrc == Found(tracers)
    ensures ftrc == null <==> forall i :: 0 <= i < |tracers| ==> tracers[i].U >= 1.0
  {
    GrepNothingIff(LedgersOf(tracers), |tracers|);
    ftrc := null;
    var umax := 1.0;
    ghost var ls := LedgersOf(tracers);
    for i := 0 to |tracers|
      invariant ftrc == if GrepAfter(ls, i) < 0 then null else tracers[GrepAfter(ls, i)]
      invariant umax == if GrepAfter(ls, i) < 0 then 1.0 else ls[GrepAfter(ls, i)].load
    {
      var trc := tracers[i];
      assert ls[i] == trc.State();
      if trc.U < umax || (ftrc != null && trc.U < ftrc.U * 1.2 && !ftrc.harmonic && trc.harmonic) {
        umax, ftrc := trc.U, trc;
      }
    }
  }

  /** Nothing is found exactly when every tracer is full. */
  lemma {:induction false} GrepNothingIff(ls: seq<Ledger>, n: nat)
    requires n <= |ls|
    ensures GrepAfter(ls, n) == -1 <==> forall k :: 0 <= k < n ==> ls[k].load >= 1.0
  {
    if n > 0 {
      GrepNothingIff(ls, n - 1);
    }
  }

  /** Among tracers with the same flag the one found has the lowest load of all, and it is not full. */
  lemma {:induction false} GrepLowest(ls: seq<Ledger>, n: nat, k: nat)
    requires k < n <= |ls| && GrepAfter(ls, n) >= 0
    requires forall i, j :: 0 <= i < n && 0 <= j < n ==> ls[i].harmonic == ls[j].harmonic
    ensures ls[GrepAfter(ls, n)].load <= ls[k].load && ls[GrepAfter(ls, n)].load < 1.0
  {
    var before := GrepAfter(ls, n - 1);
    if n > 1 && before >= 0 {
      GrepLowest(ls, n - 1, if k < n - 1 then k else 0);
    } else if n > 1 {
      GrepNothingIff(ls, n - 1);
    }
  }

  /** A harmonic tracer at or above capacity displaces the non-harmonic one held so far. */
  predicate OverloadWins(ls: seq<Ledger>, i: nat)
    requires i < |ls|
  {
    var held := GrepAfter(ls, i);
    ls[i].harmonic && ls[i].load >= 1.0 && held >= 0 && !ls[held].harmonic && ls[i].load < ls[held].load * 1.2
  }

  /** It does so last: no tracer from then to `n` is below capacity. */
  predicate OverloadStays(ls: seq<Ledger>, i: nat, n: nat)
    requires i < n <= |ls|
  {
    OverloadWins(ls, i) && forall j :: i < j < n ==> ls[j].load >= 1.0
  }

  /** The tracer found is at or above capacity exactly when such a tracer is followed by none below
      capacity. */
  lemma {:induction false} GrepOverloadsIff(ls: seq<Ledger>, n: nat)
    requires n <= |ls|
    ensures GrepAfter(ls, n) >= 0 && ls[GrepAfter(ls, n)].load >= 1.0
      <==> exists i :: 0 <= i < n && OverloadStays(ls, i, n)
  {
    if n > 0 {
      var m := n - 1;
      GrepOverloadsIff(ls, m);
      if i :| 0 <= i < m && OverloadStays(ls, i, m) && ls[m].load >= 1.0 {
        assert OverloadStays(ls, i, n);
      }
      if i :| 0 <= i < m && OverloadStays(ls, i, n) {
        assert OverloadStays(ls, i, m);
      }
      assert OverloadStays(ls, m, n) <==> OverloadWins(ls, m);
    }
  }

  /** It never is when no harmonic tracer is loaded between 100 and 120 percent. */
  lemma {:induction false} GrepWithinCapacity(ls: seq<Ledger>, n: nat)
    requires n <= |ls| && GrepAfter(ls, n) >= 0
    requires forall i :: 0 <= i < n && ls[i].harmonic ==> !(1.0 <= ls[i].load < 1.2)
    ensures ls[GrepAfter(ls, n)].load < 1.0
  {
    if GrepAfter(ls, n - 1) >= 0 {
      GrepWithinCapacity(ls, n - 1);
    }
  }

  /** A harmonic tracer at 1.10 wins over one at 0.95. */
  lemma GrepCanOverload()
    ensures GrepAfter([Ledger(100, 95, 0.95, false), Ledger(100, 110, 1.10, true)], 2) == 1
  {
    assert GrepAfter([Ledger(100, 95, 0.95, false), Ledger(100, 110, 1.10, true)], 1) == 0;
  }

  /** How often the slack has let a tracer win that is not less loaded than the one held. */
  function SlackWins(ls: seq<Ledger>, n: nat): nat
    requires n <= |ls|
  {
    if n == 0 then 0
    else
      var held := GrepAfter(ls, n - 1);
      SlackWins(ls, n - 1) + if held >= 0 && GrepAfter(ls, n) == n - 1 && ls[n-1].load >= ls[held].load then 1 else 0
  }

  /** 1.2 to the power `k`. */
  function Slack(k: nat): (f: real)
    ensures f >= 1.0
  {
    if k == 0 then 1.0 else 1.2 * Slack(k - 1)
  }

  /** One step: the tracer held stays, a less loaded one replaces it, or the slack decides. */
  lemma GrepStep(ls: seq<Ledger>, n: nat)
    requires 0 < n <= |ls|
    ensures var held, best, more := GrepAfter(ls, n - 1), GrepAfter(ls, n), SlackWins(ls, n) - SlackWins(ls, n - 1);
      if held < 0 then best >= 0 ==> best == n - 1 && ls[best].load < 1.0 && more == 0
      else
        || (best == held && ls[held].load <= ls[n-1].load && more == 0)
        || (best == n - 1 && ls[best].load < ls[held].load && more == 0)
        || (best == n - 1 && ls[held].load <= ls[best].load < ls[held].load * 1.2 && more == 1)
  {
  }

  /** At most 20 percent per win above `low`. */
  predicate WithinSlack(load: real, wins: nat, low: real) { load <= Slack(wins) * low }

  lemma NoSlackUsed(load: real, wins: nat, low: real)
    requires 0.0 <= load <= low
    ensures WithinSlack(load, wins, low)
  {
    assert Slack(wins) * low >= low;
  }

  lemma SlackUsed(held: real, load: real, wins: nat, low: real)
    requires WithinSlack(held, wins, low)
    ensures load <= held ==> WithinSlack(load, wins, low)
    ensures load < held * 1.2 ==> WithinSlack(load, wins + 1, low)
  {
    assert Slack(wins + 1) * low == 1.2 * (Slack(wins) * low);
  }

  /** The tracer found is above any other load by at most 20 percent per such win. */
  lemma {:induction false} GrepSlackBound(ls: seq<Ledger>, n: nat, k: nat)
    requires k < n <= |ls| && GrepAfter(ls, n) >= 0 && forall i :: 0 <= i < n ==> ls[i].load >= 0.0
    ensures WithinSlack(ls[GrepAfter(ls, n)].load, SlackWins(ls, n), ls[k].load)
  {
    hide GrepAfter, SlackWins, WithinSlack;
    GrepStep(ls, n);
    var held, best := GrepAfter(ls, n - 1), GrepAfter(ls, n);
    if held >= 0 && k < n - 1 {
      GrepSlackBound(ls, n - 1, k);
      SlackUsed(ls[held].load, ls[best].load, SlackWins(ls, n - 1), ls[k].load);
    } else {
      GrepNothingIff(ls, n - 1);
      NoSlackUsed(ls[best].load, SlackWins(ls, n), ls[k].load);
    }
  }

  /** From the first harmonic tracer on, all are harmonic. */
  ghost predicate HarmonicLast(ls: seq<Ledger>, n: nat) {
    n <= |ls| && forall i, j :: 0 <= i < j < n && ls[i].harmonic ==> ls[j].harmonic
  }

  /** With no non-harmonic tracer after a harmonic one the slack decides at most once. */
  lemma {:induction false} SlackWinsOnce(ls: seq<Ledger>, n: nat)
    requires HarmonicLast(ls, n)
    ensures SlackWins(ls, n) <= 1
    ensures SlackWins(ls, n) == 1 ==> GrepAfter(ls, n) >= 0 && ls[GrepAfter(ls, n)].harmonic
  {
    if n > 0 {
      SlackWinsOnce(ls, n - 1);
    }
  }

  /** So the tracer found is within 20 percent of every load. */
  lemma GrepWithinSlack(ls: seq<Ledger>, n: nat, k: nat)
    requires HarmonicLast(ls, n) && k < n && GrepAfter(ls, n) >= 0 && forall i :: 0 <= i < n ==> ls[i].load >= 0.0
    ensures ls[GrepAfter(ls, n)].load <= 1.2 * ls[k].load
  {
    SlackWinsOnce(ls, n);
    GrepSlackBound(ls, n, k);
    assert Slack(0) == 1.0 && Slack(1) == 1.2;
  }

  /** It can be: of loads .50, .59, .55, .65 the last one is found after two such wins, 30 percent
      above the lowest. */
  lemma GrepSlackAccumulates()
    ensures var ls := [Ledger(10, 5, 0.50, false), Ledger(100, 59, 0.59, true), Ledger(100, 55, 0.55, false),
      Ledger(100, 65, 0.65, true)];
      GrepAfter(ls, 4) == 3 && SlackWins(ls, 4) == 2 && ls[3].load > 1.2 * ls[0].load
  {
    var ls := [Ledger(10, 5, 0.50, false), Ledger(100, 59, 0.59, true), Ledger(100, 55, 0.55, false),
      Ledger(100, 65, 0.65, true)];
    assert GrepAfter(ls, 1) == 0 && SlackWins(ls, 1) == 0;
    assert GrepAfter(ls, 2) == 1 && SlackWins(ls, 2) == 1;
    assert GrepAfter(ls, 3) == 2 && SlackWins(ls, 3) == 1;
  }

  /** The items still without a tracer share one: nothing is charged, so every policy finds the
      same one. */
  ghost predicate RestOn(before: seq<Alloc>, after: seq<Alloc>, n: nat, t: Tracer?) {
    |before| == |after|
    && forall i :: 0 <= i < |before| ==>
         after[i] == if i < n && before[i].tracer == null then before[i].(tracer := t) else before[i]
  }

  /** The third pass. */
  method PlanRest(head: Node?<Alloc>, tracers: seq<Tracer>, ghost r: seq<Node<Alloc>>)
    requires IsList(head, r)
    modifies r`item
    ensures RestOn(old(ItemsOf(r)), ItemsOf(r), |r|, Found(tracers))
  {
    hide RestOn, Found, Remembered;
    RememberedNothing(tracers);
    ghost var before, g := ItemsOf(r), Found(tracers);
    RestStart(before, g);
    var ff: Tracer?, rr: Tracer?, bt: Tracer?, nt: Tracer? := null, null, null, null;
    var res := head;
    ghost var i := 0;
    while res != null
      invariant i <= |r| && res == (if i < |r| then r[i] else null)
      invariant RestOn(before, ItemsOf(r), i, g) && g == Found(tracers)
      invariant Remembered(ff, tracers) && Remembered(rr, tracers) && Remembered(bt, tracers) && Remembered(nt, tracers)
      decreases |r| - i
    {
      ghost var after := ItemsOf(r);
      RestStep(before, after, i, g);
      if res.item.tracer == null {
        var t;
        t, ff, rr, bt, nt := FindForPolicy(res.item.attr.policy, ff, rr, bt, nt, tracers);
        PlaceOn(res, t, r, i);
      } else {
        assert ItemsOf(r) == after;
      }
      res := res.next;
      i := i + 1;
    }
  }

  /** Whether a remembered tracer is absent or the one a search finds. */
  ghost predicate Remembered(t: Tracer?, tracers: seq<Tracer>)
    reads tracers
  {
    t == null || t == Found(tracers)
  }

  lemma RememberedNothing(tracers: seq<Tracer>)
    ensures Remembered(null, tracers)
  {
  }

  /** The tracer remembered for a policy, searched for the first time it is needed. */
  method FindForPolicy(policy: nat, ff: Tracer?, rr: Tracer?, bt: Tracer?, nt: Tracer?, tracers: seq<Tracer>)
    returns (t: Tracer?, ff': Tracer?, rr': Tracer?, bt': Tracer?, nt': Tracer?)
    requires Remembered(ff, tracers) && Remembered(rr, tracers) && Remembered(bt, tracers) && Remembered(nt, tracers)
    ensures t == Found(tracers)
    ensures Remembered(ff', tracers) && Remembered(rr', tracers) && Remembered(bt', tracers) && Remembered(nt', tracers)
  {
    ff', rr', bt', nt' := ff, rr, bt, nt;
    if policy == SCHED_FIFO {
      ff' := FoundOnce(ff, tracers);
      t := ff';
    } else if policy == SCHED_RR {
      rr' := FoundOnce(rr, tracers);
      t := rr';
    } else if policy == SCHED_BATCH {
      bt' := FoundOnce(bt, tracers);
      t := bt';
    } else {
      nt' := FoundOnce(nt, tracers);
      t := nt';
    }
  }

  /** Records the tracer of one item. */
  method PlaceOn(res: Node<Alloc>, t: Tracer?, ghost r: seq<Node<Alloc>>, ghost i: nat)
    requires NoDuplicates(r) && i < |r| && r[i] == res
    modifies res`item
    ensures ItemsOf(r) == old(ItemsOf(r))[i := old(res.item).(tracer := t)]
  {
    res.item := res.item.(tracer := t);
  }

  lemma RestStart(items: seq<Alloc>, t: Tracer?)
    ensures RestOn(items, items, 0, t)
  {
  }

  lemma RestStep(before: seq<Alloc>, after: seq<Alloc>, n: nat, t: Tracer?)
    requires RestOn(before, after, n, t) && n < |before|
    ensures before[n] == after[n]
    ensures before[n].tracer == null ==> RestOn(before, after[n := after[n].(tracer := t)], n + 1, t)
    ensures before[n].tracer != null ==> RestOn(before, after, n + 1, t)
  {
  }

  /** Searches unless an earlier search already found something. */
  method FoundOnce(found: Tracer?, tracers: seq<Tracer>) returns (t: Tracer?)
    requires found == null || found == Found(tracers)
    ensures t == Found(tracers)
  {
    t := found;
    if t == null {
      t := GrepTracer(tracers);
    }
  }

  // ---------------------------------------------------------------------------------------
  // The whole plan
  // ---------------------------------------------------------------------------------------

  /** No truncation disturbs the comparison of any two items. */
  ghost predicate Undisturbed(items: seq<Alloc>) {
    forall a, b :: a in items && b in items ==> Comparable(a.attr, b.attr)
  }

  ghost predicate InPlanOrder(items: seq<Alloc>) {
    forall i, j :: 0 <= i < j < |items| ==> !(CmpS(items[j].attr, items[i].attr) < 0)
  }

  /** Undisturbed, the comparator of the plan is a strict partial order. */
  lemma PlanOrder(compar: Compar<Alloc>, s: seq<Node<Alloc>>)
    requires forall x: Alloc, y: Alloc :: compar(x, y) == CmpS(x.attr, y.attr)
    requires Undisturbed(ItemsOf(s))
    ensures StrictOrder(compar, s)
  {
    hide CmpS, Comparable;
    forall a | a in s ensures a.item in ItemsOf(s) {
      var i :| 0 <= i < |s| && s[i] == a;
      assert ItemsOf(s)[i] == a.item;
    }
    forall a, b, c | a in s && b in s && c in s
      ensures Less(compar, a, b) ==> !Less(compar, b, a)
      ensures Less(compar, a, b) && Less(compar, b, c) ==> Less(compar, a, c)
    {
      CmpSIsStrictOrder(a.item.attr, b.item.attr, c.item.attr);
    }
  }

  lemma SortedInPlanOrder(compar: Compar<Alloc>, r: seq<Node<Alloc>>)
    requires forall x: Alloc, y: Alloc :: compar(x, y) == CmpS(x.attr, y.attr)
    requires Sorted(compar, r)
    ensures InPlanOrder(ItemsOf(r))
  {
    hide CmpS;
    forall i, j | 0 <= i < j < |r| ensures !(CmpS(ItemsOf(r)[j].attr, ItemsOf(r)[i].attr) < 0) {
      assert !Less(compar, r[j], r[i]);
    }
  }

  /** The two passes turn by turn, with `half` the list between them. */
  ghost predicate Stages(tracers: seq<Tracer>, ls: seq<Ledger>, ls'': seq<Ledger>, before: seq<Alloc>, half: seq<Alloc>,
                         after: seq<Alloc>, first: seq<seq<Ledger>>, second: seq<seq<Ledger>>, rrtime: nat)
    requires rrtime > 0
  {
    && Run(tracers, first, before, half, |before|, true, rrtime) && first[0] == ls
    && Run(tracers, second, half, after, |before|, false, rrtime) && second[|before|] == ls''
    && second[0] == first[|before|]
    && PassState(tracers, ls, second[0], before, half, |before|, true, rrtime)
    && PassState(tracers, second[0], ls'', half, after, |half|, false, rrtime)
  }

  /** Between the passes only items with a period were placed, so the ledgers carry nothing else on top of their
      old loads; an item with a period that is still unplaced then is rejected by all of them, and keeps that
      state. */
  lemma PeriodsFirst(tracers: seq<Tracer>, ls: seq<Ledger>, ls'': seq<Ledger>, before: seq<Alloc>, half: seq<Alloc>,
                     after: seq<Alloc>, first: seq<seq<Ledger>>, second: seq<seq<Ledger>>, rrtime: nat)
    requires rrtime > 0 && Stages(tracers, ls, ls'', before, half, after, first, second, rrtime)
    ensures Run(tracers, first, before, half, |before|, true, rrtime) && first[0] == ls
    ensures Run(tracers, second, half, after, |before|, false, rrtime) && second[|before|] == ls''
    ensures second[0] == first[|before|]
    ensures Charged(tracers, ls, second[0], before, half, rrtime)
    ensures forall i :: 0 <= i < |before| && before[i].tracer == null && half[i].tracer != null ==>
      half[i].attr.runtime != 0 && half[i].attr.period != 0
    ensures forall i ::
      0 <= i < |half| && half[i].attr.runtime != 0 && half[i].attr.period != 0 && half[i].affinity < 0
      && half[i].tracer == null ==>
        after[i] == half[i] == before[i] && RejectedByAll(second[0], half[i], rrtime)
  {
    hide Charged, RejectedByAll, SoughtFor, Charge;
    PassesCompose(tracers, ls, second[0], ls'', before, half, after, rrtime);
    forall i | 0 <= i < |before| && before[i].tracer == null && half[i].tracer != null
      ensures half[i].attr.runtime != 0 && half[i].attr.period != 0
    {
      assert Turn(tracers, first[i], first[i+1], before[i], half[i], Eligible(before[i], true), rrtime);
    }
    forall i | 0 <= i < |half| && half[i].attr.runtime != 0 && half[i].attr.period != 0 && half[i].affinity < 0
               && half[i].tracer == null
      ensures after[i] == half[i] == before[i] && RejectedByAll(second[0], half[i], rrtime)
    {
      assert Eligible(half[i], true);
    }
  }

  /** The two charging passes. */
  method Charging(head: Node?<Alloc>, tracers: seq<Tracer>, rrtime: nat, ghost r: seq<Node<Alloc>>)
    returns (ghost half: seq<Alloc>, ghost first: seq<seq<Ledger>>, ghost second: seq<seq<Ledger>>)
    requires rrtime > 0 && IsList(head, r) && AllConsistent(tracers) && DistinctTracers(tracers)
    modifies r`item, tracers
    ensures AllConsistent(tracers)
    ensures Planned(tracers, old(LedgersOf(tracers)), LedgersOf(tracers), old(ItemsOf(r)), ItemsOf(r), rrtime)
    ensures Stages(tracers, old(LedgersOf(tracers)), LedgersOf(tracers), old(ItemsOf(r)), half, ItemsOf(r), first,
                   second, rrtime)
  {
    hide PassState, Planned, Consistent, Run;
    ghost var ls, items := LedgersOf(tracers), ItemsOf(r);
    first := PlanPass(head, tracers, true, rrtime, r);
    half := ItemsOf(r);
    ghost var ls' := LedgersOf(tracers);
    second := PlanPass(head, tracers, false, rrtime, r);
    PassesCompose(tracers, ls, ls', LedgersOf(tracers), items, half, ItemsOf(r), rrtime);
  }

  /** The sorting step of the plan. */
  method SortPlan(head: Node?<Alloc>, ghost s: seq<Node<Alloc>>)
    returns (newHead: Node?<Alloc>, ghost r: seq<Node<Alloc>>)
    requires IsList(head, s)
    modifies s`next
    ensures IsList(newHead, r) && multiset(r) == multiset(s) && forall i :: 0 <= i < |r| ==> r[i] in s
    ensures multiset(ItemsOf(r)) == multiset(ItemsOf(s)) && ItemsOf(s) == old(ItemsOf(s))
    ensures Undisturbed(ItemsOf(r)) ==> InPlanOrder(ItemsOf(r))
  {
    hide Sorted, StrictOrder, InPlanOrder, CmpS, Comparable, IsList;
    var compar: Compar<Alloc> := (x: Alloc, y: Alloc) => CmpS(x.attr, y.attr);
    ghost var items := ItemsOf(s);
    newHead, r := QSort(head, compar, s);
    assert ItemsOf(s) == items;
    SameMembers(r, s);
    ValuesPermute(s, items, r, ItemsOf(r));
    if Undisturbed(ItemsOf(r)) {
      SameMembers(items, ItemsOf(r));
      PlanOrder(compar, s);
      SortedInPlanOrder(compar, r);
    }
  }

  /** The three passes over the sorted list; `planned` is the list between the second and the third. */
  method PlanSorted(head: Node?<Alloc>, tracers: seq<Tracer>, rrtime: nat, ghost r: seq<Node<Alloc>>)
    returns (ghost half: seq<Alloc>, ghost first: seq<seq<Ledger>>, ghost second: seq<seq<Ledger>>,
             ghost planned: seq<Alloc>)
    requires rrtime > 0 && IsList(head, r) && AllConsistent(tracers) && DistinctTracers(tracers)
    modifies r`item, tracers
    ensures AllConsistent(tracers)
    ensures Planned(tracers, old(LedgersOf(tracers)), LedgersOf(tracers), old(ItemsOf(r)), planned, rrtime)
    ensures Stages(tracers, old(LedgersOf(tracers)), LedgersOf(tracers), old(ItemsOf(r)), half, planned, first, second,
                   rrtime)
    ensures RestOn(planned, ItemsOf(r), |r|, Found(tracers))
  {
    hide Planned, RestOn, Consistent, Found, IsList, DistinctTracers, Stages;
    half, first, second := Charging(head, tracers, rrtime, r);
    planned := ItemsOf(r);
    ghost var ls := LedgersOf(tracers);
    PlanRest(head, tracers, r);
    assert LedgersOf(tracers) == ls;
  }

  /** Sorts the allocations, charges those with known runtime and period, then those with a known
      runtime, and puts the rest on one lightly loaded tracer without charging it. `sorted` is the
      list before, `half` between and `planned` after the two charging passes, `first` and `second` are the
      trails of their ledgers. */
  method AdaptPlanSchedule(head: Node?<Alloc>, tracers: seq<Tracer>, rrtime: nat, ghost s: seq<Node<Alloc>>)
    returns (newHead: Node?<Alloc>, ghost r: seq<Node<Alloc>>, ghost sorted: seq<Alloc>, ghost half: seq<Alloc>,
             ghost planned: seq<Alloc>, ghost first: seq<seq<Ledger>>, ghost second: seq<seq<Ledger>>)
    requires rrtime > 0 && IsList(head, s) && AllConsistent(tracers) && DistinctTracers(tracers)
    modifies s`next, s`item, tracers
    ensures IsList(newHead, r) && multiset(r) == multiset(s)
    ensures multiset(sorted) == multiset(old(ItemsOf(s))) && (Undisturbed(sorted) ==> InPlanOrder(sorted))
    ensures AllConsistent(tracers)
    ensures Planned(tracers, old(LedgersOf(tracers)), LedgersOf(tracers), sorted, planned, rrtime)
    // turn by turn
    ensures Run(tracers, first, sorted, half, |sorted|, true, rrtime) && first[0] == old(LedgersOf(tracers))
    ensures Run(tracers, second, half, planned, |sorted|, false, rrtime) && second[|sorted|] == LedgersOf(tracers)
    ensures second[0] == first[|sorted|]
    // the items with a period come first: the ledgers in between carry nothing else on top of their old loads
    ensures Charged(tracers, old(LedgersOf(tracers)), second[0], sorted, half, rrtime)
    ensures forall i :: 0 <= i < |sorted| && sorted[i].tracer == null && half[i].tracer != null ==>
      half[i].attr.runtime != 0 && half[i].attr.period != 0
    ensures forall i ::
      0 <= i < |half| && half[i].attr.runtime != 0 && half[i].attr.period != 0 && half[i].affinity < 0
      && half[i].tracer == null ==>
        planned[i] == half[i] == sorted[i] && RejectedByAll(second[0], half[i], rrtime)
    // the rest shares one tracer
    ensures RestOn(planned, ItemsOf(r), |r|, Found(tracers))
  {
    hide Planned, RestOn, Consistent, InPlanOrder, Undisturbed, Found, IsList, DistinctTracers, Charged, Run;
    hide RejectedByAll, Stages, ItemsOf, LedgersOf;
    ghost var ls := LedgersOf(tracers);
    newHead, r := SortPlan(head, s);
    sorted := ItemsOf(r);
    assert LedgersOf(tracers) == ls;
    half, first, second, planned := PlanSorted(newHead, tracers, rrtime, r);
    PeriodsFirst(tracers, ls, LedgersOf(tracers), sorted, half, planned, first, second, rrtime);
  }
}
