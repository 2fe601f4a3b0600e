/** The re-scramble of `src/orchestrator/adaptive.c`: items move to better tracers while every
    ledger keeps accounting for exactly the items placed on it. */
module Scramble {
  import opened Ledgers
  import opened Resources
  import opened ListSort
  import opened Plan

  /** The attributes placed on a tracer, in list order. */
  ghost function PlacedAttrs(items: seq<Alloc>, t: Tracer): seq<Attr> {
    if items == [] then []
    else PlacedAttrs(items[..|items|-1], t) + if items[|items|-1].tracer == t then [items[|items|-1].attr] else []
  }

  /** A ledger accounts for a list of attributes: same base, used time and load as booking them. */
  ghost predicate AccountsFor(l: Ledger, attrs: seq<Attr>, rrtime: nat)
    requires rrtime > 0
  {
    ChargeableAll(attrs, rrtime);
    var booked := Booked(Empty(false), attrs, rrtime);
    l.base == booked.base && l.used == booked.used && l.load == booked.load
  }

  /** A ledger is exact as long as everything placed on its tracer has a known runtime; with unknown ones
      its contents depend on the order of the charges. */
  ghost predicate Exact(t: Tracer, l: Ledger, items: seq<Alloc>, rrtime: nat)
    requires rrtime > 0
  {
    AllKnown(PlacedAttrs(items, t)) ==> AccountsFor(l, PlacedAttrs(items, t), rrtime)
  }

  /** A tracer with known items only, an exact ledger, and within capacity. */
  ghost predicate Sound(t: Tracer, l: Ledger, items: seq<Alloc>, rrtime: nat)
    requires rrtime > 0
  {
    AllKnown(PlacedAttrs(items, t)) && Exact(t, l, items, rrtime) && LoadOf(l) <= 1.0
  }

  lemma MoreOf(s: seq<Attr>, s': seq<Attr>, a: Attr, tail: seq<Attr>)
    requires multiset(s') == multiset(s) + multiset{a}
    ensures multiset(s' + tail) == multiset(s + tail) + multiset{a}
  {
  }

  /** Moving an item to `u` adds its attributes to what is placed on `u`. */
  lemma {:induction false} PlacedGain(items: seq<Alloc>, items': seq<Alloc>, i: nat, u: Tracer)
    requires i < |items| && items[i].tracer != u && items' == items[i := items[i].(tracer := u)]
    ensures multiset(PlacedAttrs(items', u)) == multiset(PlacedAttrs(items, u)) + multiset{items[i].attr}
  {
    var n := |items| - 1;
    var front, front' := items[..n], items'[..n];
    if i == n {
      assert front' == front;
    } else {
      assert front' == front[i := front[i].(tracer := u)];
      PlacedGain(front, front', i, u);
      MoreOf(PlacedAttrs(front, u), PlacedAttrs(front', u), items[i].attr, if items[n].tracer == u
        then [items[n].attr] else []);
    }
  }

  /** Moving an item from `t` takes its attributes off what is placed on `t`. */
  lemma PlacedLoss(items: seq<Alloc>, i: nat, u: Tracer, t: Tracer)
    requires i < |items| && items[i].tracer == t && t != u
    ensures multiset(PlacedAttrs(items, t))
      == multiset(PlacedAttrs(items[i := items[i].(tracer := u)], t)) + multiset{items[i].attr}
  {
    var items' := items[i := items[i].(tracer := u)];
    assert items'[i := items'[i].(tracer := t)] == items;
    PlacedGain(items', items, i, t);
  }

  /** Other tracers keep what is placed on them. */
  lemma {:induction false} PlacedElsewhere(items: seq<Alloc>, i: nat, u: Tracer, t: Tracer)
    requires i < |items| && items[i].tracer != t && t != u
    ensures PlacedAttrs(items[i := items[i].(tracer := u)], t) == PlacedAttrs(items, t)
  {
    var n := |items| - 1;
    var items' := items[i := items[i].(tracer := u)];
    if i == n {
      assert items'[..n] == items[..n];
    } else {
      PlacedElsewhere(items[..n], i, u, t);
      assert items'[..n] == items[..n][i := items[i].(tracer := u)];
    }
  }

  /** A ledger that accounts for known attributes is exact. */
  lemma AccountsConsistent(l: Ledger, attrs: seq<Attr>, rrtime: nat)
    requires rrtime > 0 && AccountsFor(l, attrs, rrtime)
    ensures Consistent(l)
    ensures Chargeable(attrs, rrtime)
    ensures AllKnown(attrs) ==> LoadOf(l) == TotalShare(attrs, rrtime)
  {
    ChargeableAll(attrs, rrtime);
    NothingBooked(rrtime);
    BookedLoad(Empty(false), attrs, rrtime);
    FlagIrrelevant(Booked(Empty(false), attrs, rrtime), l);
  }

  /** Charging a known item leaves the ledger accounting for any list of the old attributes and the
      new one, wherever the new one stands. */
  lemma ChargeAccounts(l: Ledger, attrs: seq<Attr>, attrs': seq<Attr>, a: Attr, rrtime: nat)
    requires rrtime > 0 && AccountsFor(l, attrs, rrtime) && AllKnown(attrs) && KnownRuntime(a)
    requires multiset(attrs') == multiset(attrs) + multiset{a} && EffectivePeriod(a, rrtime) > 0
    ensures AccountsFor(Charge(l, a, rrtime), attrs', rrtime)
  {
    ChargeableAll(attrs, rrtime);
    ChargeableAll(attrs', rrtime);
    NothingBooked(rrtime);
    BookedLoad(Empty(false), attrs, rrtime);
    BookOne(attrs, a, rrtime);
    assert AllKnown(attrs + [a]);
    BookingOrderIrrelevant(Empty(false), attrs + [a], attrs', rrtime);
    ChargeFlagIrrelevant(l, Booked(Empty(false), attrs, rrtime), a, rrtime);
  }

  lemma ChargeFlagIrrelevant(l: Ledger, l': Ledger, a: Attr, rrtime: nat)
    requires EffectivePeriod(a, rrtime) > 0 && l.base == l'.base && l.used == l'.used
    ensures Charge(l, a, rrtime).(harmonic := false) == Charge(l', a, rrtime).(harmonic := false)
  {
  }

  /** Taking an item away never raises the load. */
  lemma RemovalRelieves(l: Ledger, l': Ledger, attrs: seq<Attr>, attrs': seq<Attr>, a: Attr, rrtime: nat)
    requires rrtime > 0 && AccountsFor(l, attrs, rrtime) && AccountsFor(l', attrs', rrtime)
    requires AllKnown(attrs) && multiset(attrs) == multiset(attrs') + multiset{a}
    ensures LoadOf(l') <= LoadOf(l)
  {
    assert a in attrs by {
      assert a in multiset(attrs);
    }
    assert AllKnown(attrs') by {
      forall i | 0 <= i < |attrs'| ensures KnownRuntime(attrs'[i]) {
        assert attrs'[i] in multiset(attrs') && attrs'[i] in multiset(attrs);
        assert attrs'[i] in attrs;
      }
    }
    ChargeableAll([a], rrtime);
    assert EffectivePeriod([a][0], rrtime) > 0;
    ChargeAccounts(l', attrs', attrs, a, rrtime);
    AccountsConsistent(l', attrs', rrtime);
    ChargeLoad(l', a, rrtime);
    ShareNonNegative(a, rrtime);
    SameAccount(l, Charge(l', a, rrtime), attrs, rrtime);
  }

  lemma SameAccount(l: Ledger, l': Ledger, attrs: seq<Attr>, rrtime: nat)
    requires rrtime > 0 && l.base == l'.base && l.used == l'.used && l.load == l'.load
    ensures LoadOf(l) == LoadOf(l') && (AccountsFor(l, attrs, rrtime) <==> AccountsFor(l', attrs, rrtime))
  {
  }

  // ---------------------------------------------------------------------------------------
  // Recomputation over the plan
  // ---------------------------------------------------------------------------------------

  lemma PlacedOne(items: seq<Alloc>, i: nat, t: Tracer)
    requires i < |items|
    ensures PlacedAttrs(items[..i+1], t) == PlacedAttrs(items[..i], t) + if items[i].tracer == t
      then [items[i].attr] else []
  {
    assert items[..i+1][..i] == items[..i];
  }

  /** A scratch tracer charged with the items placed on `res`. */
  method RebuildPlaced(res: Tracer, head: Node?<Alloc>, rrtime: nat, ghost r: seq<Node<Alloc>>)
    returns (resNew: Tracer, rv: int)
    requires rrtime > 0 && IsList(head, r)
    ensures fresh(resNew) && AccountsFor(resNew.State(), PlacedAttrs(ItemsOf(r), res), rrtime)
    ensures rv == if LoadOf(resNew.State()) > 1.0 then -1 else 0
  {
    resNew := new Tracer([], false);
    rv := 0;
    NothingBooked(rrtime);
    ghost var items, sofar := ItemsOf(r), [];
    hide LoadOf, Consistent, Booked, NoDuplicates;
    var alloc := head;
    ghost var i := 0;
    while alloc != null
      invariant fresh(resNew) && ItemsOf(r) == items
      invariant i <= |r| && alloc == (if i < |r| then r[i] else null)
      invariant sofar == PlacedAttrs(items[..i], res) && Chargeable(sofar, rrtime)
      invariant resNew.State() == Booked(Empty(false), sofar, rrtime) && Consistent(resNew.State())
      invariant rv == if LoadOf(resNew.State()) > 1.0 then -1 else 0
      decreases |r| - i
    {
      PlacedOne(items, i, res);
      if alloc.item.tracer == res {
        var a := alloc.item.attr;
        ChargeableAll([a], rrtime);
        assert EffectivePeriod([a][0], rrtime) > 0;
        rv := Account(resNew, a, rrtime, rv, sofar);
        sofar := sofar + [a];
      }
      alloc := alloc.next;
      i := i + 1;
    }
    assert items[..i] == items;
  }

  /** Rebuilds a tracer's accounting from the items placed on it; -1 exactly when their load is above
      capacity. The harmonic flag is not rebuilt. */
  method RecomputeTimesS(res: Tracer, head: Node?<Alloc>, rrtime: nat, ghost r: seq<Node<Alloc>>) returns (rv: int)
    requires rrtime > 0 && IsList(head, r)
    modifies res
    ensures AccountsFor(res.State(), PlacedAttrs(ItemsOf(r), res), rrtime) && res.harmonic == old(res.harmonic)
    ensures rv == if LoadOf(res.State()) > 1.0 then -1 else 0
  {
    hide LoadOf, AccountsFor, IsList, PlacedAttrs;
    ghost var items := ItemsOf(r);
    var resNew;
    resNew, rv := RebuildPlaced(res, head, rrtime, r);
    assert ItemsOf(r) == items;
    res.basePeriod, res.usedPeriod, res.U := resNew.basePeriod, resNew.usedPeriod, resNew.U;
    assert ItemsOf(r) == items;
    SameAccount(resNew.State(), res.State(), PlacedAttrs(items, res), rrtime);
  }

  // ---------------------------------------------------------------------------------------
  // The scramble
  // ---------------------------------------------------------------------------------------

  /** Only placed items that are not fixed move, and only to other tracers. Each exact ledger stays exact; and
      unless flexible items of unknown runtime move about, each sound tracer stays sound, except one that a
      movable item names. */
  ghost predicate Scrambled(tracers: seq<Tracer>, ls: seq<Ledger>, ls': seq<Ledger>, before: seq<Alloc>,
                            after: seq<Alloc>, rrtime: nat)
    requires rrtime > 0
  {
    && |tracers| == |ls| == |ls'| && OnlyMoves(before, after, tracers)
    && (forall k :: 0 <= k < |ls| && Exact(tracers[k], ls[k], before, rrtime) ==>
          Exact(tracers[k], ls'[k], after, rrtime))
    && (MovableKnown(before) ==> CapacityHeld(tracers, ls, ls', before, after, rrtime))
  }

  /** Flexible items that may move have a known runtime. */
  ghost predicate MovableKnown(items: seq<Alloc>) {
    forall i :: 0 <= i < |items| && items[i].tracer != null && !items[i].fixed && items[i].affinity < 0 ==>
      KnownRuntime(items[i].attr)
  }

  /** A placed item that may move names this tracer's CPU and would be put there unchecked. */
  ghost predicate Claimed(tracers: seq<Tracer>, items: seq<Alloc>, t: Tracer) {
    exists i :: 0 <= i < |items| && items[i].tracer != null && !items[i].fixed
      && items[i].affinity >= 0 && TracerFor(tracers, items[i].affinity) == t
  }

  ghost predicate CapacityHeld(tracers: seq<Tracer>, ls: seq<Ledger>, ls': seq<Ledger>, before: seq<Alloc>,
                               after: seq<Alloc>, rrtime: nat)
    requires rrtime > 0
  {
    |tracers| == |ls| == |ls'|
    && forall k ::
         0 <= k < |ls| && Sound(tracers[k], ls[k], before, rrtime) && !Claimed(tracers, before, tracers[k]) ==>
         Sound(tracers[k], ls'[k], after, rrtime)
  }

  ghost predicate OnlyMoves(before: seq<Alloc>, after: seq<Alloc>, tracers: seq<Tracer>) {
    && |before| == |after|
    && forall i :: 0 <= i < |before| ==>
         after[i] == before[i]
         || (before[i].tracer != null && !before[i].fixed && after[i].tracer in tracers
             && after[i] == before[i].(tracer := after[i].tracer))
  }

  /** A known item more or an item less keeps known what is known. */
  lemma KnownAfter(s: seq<Attr>, s': seq<Attr>, a: Attr)
    ensures multiset(s') == multiset(s) + multiset{a} ==> (AllKnown(s') <==> AllKnown(s) && KnownRuntime(a))
  {
    if multiset(s') == multiset(s) + multiset{a} {
      assert multiset(s') == multiset(s + [a]);
      SameElements(s', s + [a]);
      SameElements(s + [a], s');
      assert (s + [a])[|s|] == a;
      forall i | 0 <= i < |s| ensures s[i] in s' {
        assert (s + [a])[i] == s[i];
      }
    }
  }

  /** The tracer that takes the item. */
  lemma MovedOnto(t: Tracer, l: Ledger, items: seq<Alloc>, i: nat, rrtime: nat)
    requires rrtime > 0 && i < |items| && items[i].tracer != t && EffectivePeriod(items[i].attr, rrtime) > 0
    requires Consistent(l)
    ensures var a, items' := items[i].attr, items[i := items[i].(tracer := t)];
      && (Exact(t, l, items, rrtime) ==> Exact(t, Charge(l, a, rrtime), items', rrtime))
      && (AllKnown(PlacedAttrs(items', t)) <==> AllKnown(PlacedAttrs(items, t)) && KnownRuntime(a))
      && (Score(l, a, rrtime) >= 0 ==> LoadOf(Charge(l, a, rrtime)) <= 1.0)
  {
    hide Charge, Score, AccountsFor, LoadOf, PlacedAttrs;
    var a, items' := items[i].attr, items[i := items[i].(tracer := t)];
    PlacedGain(items, items', i, t);
    KnownAfter(PlacedAttrs(items, t), PlacedAttrs(items', t), a);
    RejectedIff(l, a, rrtime);
    if AllKnown(PlacedAttrs(items', t)) && Exact(t, l, items, rrtime) {
      ChargeAccounts(l, PlacedAttrs(items, t), PlacedAttrs(items', t), a, rrtime);
    }
  }

  /** The tracer that is rebuilt without it. */
  lemma MovedOff(t: Tracer, u: Tracer, l: Ledger, rebuilt: Ledger, items: seq<Alloc>, i: nat, rrtime: nat)
    requires rrtime > 0 && i < |items| && items[i].tracer == t && t != u
    requires AccountsFor(rebuilt, PlacedAttrs(items[i := items[i].(tracer := u)], t), rrtime)
    ensures var items' := items[i := items[i].(tracer := u)];
      && Exact(t, rebuilt, items', rrtime)
      && (AllKnown(PlacedAttrs(items, t)) ==> AllKnown(PlacedAttrs(items', t)))
      && (AllKnown(PlacedAttrs(items, t)) && Exact(t, l, items, rrtime) ==> LoadOf(rebuilt) <= LoadOf(l))
  {
    hide AccountsFor, LoadOf, PlacedAttrs;
    var items' := items[i := items[i].(tracer := u)];
    PlacedLoss(items, i, u, t);
    KnownAfter(PlacedAttrs(items', t), PlacedAttrs(items, t), items[i].attr);
    if AllKnown(PlacedAttrs(items, t)) && Exact(t, l, items, rrtime) {
      RemovalRelieves(l, rebuilt, PlacedAttrs(items, t), PlacedAttrs(items', t), items[i].attr, rrtime);
    }
  }

  /** Moving one item from tracer `o` to tracer `m`, tracer by tracer: exact ledgers stay exact, the load of a
      known, exact tracer other than `m` does not rise, and `m` is within capacity if it takes the item. */
  lemma MoveItem(tracers: seq<Tracer>, ls: seq<Ledger>, items: seq<Alloc>, i: nat, o: nat, m: nat, rebuilt: Ledger,
                 k: nat, rrtime: nat)
    requires rrtime > 0 && DistinctTracers(tracers) && i < |items| && k < |tracers| == |ls|
    requires o < |tracers| && m < |tracers| && o != m && Consistent(ls[m])
    requires items[i].tracer == tracers[o] && EffectivePeriod(items[i].attr, rrtime) > 0
    requires AccountsFor(rebuilt, PlacedAttrs(items[i := items[i].(tracer := tracers[m])], tracers[o]), rrtime)
    ensures var items' := items[i := items[i].(tracer := tracers[m])];
      var l' := ls[m := Charge(ls[m], items[i].attr, rrtime)][o := rebuilt][k];
      && (Exact(tracers[k], ls[k], items, rrtime) ==> Exact(tracers[k], l', items', rrtime))
      && (AllKnown(PlacedAttrs(items, tracers[k])) && (k == m ==> KnownRuntime(items[i].attr)) ==>
            AllKnown(PlacedAttrs(items', tracers[k])))
      && (k != m && AllKnown(PlacedAttrs(items, tracers[k])) && Exact(tracers[k], ls[k], items, rrtime) ==>
            LoadOf(l') <= LoadOf(ls[k]))
      && (k == m && Score(ls[m], items[i].attr, rrtime) >= 0 ==> LoadOf(l') <= 1.0)
  {
    hide Charge, Score, AccountsFor, LoadOf, PlacedAttrs, Consistent;
    assert tracers[m] != tracers[o];
    if k == m {
      MovedOnto(tracers[m], ls[m], items, i, rrtime);
    } else if k == o {
      MovedOff(tracers[o], tracers[m], ls[o], rebuilt, items, i, rrtime);
    } else {
      PlacedElsewhere(items, i, tracers[m], tracers[k]);
    }
  }

  /** Rebuilds the tracer at position `o` from the items on it. */
  method RebuildAt(head: Node?<Alloc>, trcOld: Tracer, tracers: seq<Tracer>, rrtime: nat, ghost r: seq<Node<Alloc>>,
                   ghost o: nat)
    returns (ghost rebuilt: Ledger)
    requires rrtime > 0 && IsList(head, r) && AllConsistent(tracers) && DistinctTracers(tracers)
    requires o < |tracers| && tracers[o] == trcOld
    modifies trcOld
    ensures AllConsistent(tracers) && ItemsOf(r) == old(ItemsOf(r))
    ensures AccountsFor(rebuilt, PlacedAttrs(ItemsOf(r), trcOld), rrtime) && rebuilt.harmonic == old(trcOld.harmonic)
    ensures LedgersOf(tracers) == old(LedgersOf(tracers))[o := rebuilt]
  {
    hide AccountsFor, Consistent, PlacedAttrs, Linked, NoDuplicates;
    ghost var ls, items := LedgersOf(tracers), ItemsOf(r);
    var _ := RecomputeTimesS(trcOld, head, rrtime, r);
    assert ItemsOf(r) == items;
    rebuilt := trcOld.State();
    AccountsConsistent(rebuilt, PlacedAttrs(items, trcOld), rrtime);
    forall k | 0 <= k < |tracers| ensures LedgersOf(tracers)[k] == ls[o := rebuilt][k] {
      assert k != o ==> tracers[k] != trcOld;
    }
  }

  /** Charges the new tracer, moves the item, rebuilds the old tracer. */
  method MoveTo(head: Node?<Alloc>, res: Node<Alloc>, trc: Tracer, trcOld: Tracer, tracers: seq<Tracer>, rrtime: nat,
                ghost r: seq<Node<Alloc>>, ghost i: nat, ghost o: nat, ghost m: nat) returns (ghost rebuilt: Ledger)
    requires rrtime > 0 && IsList(head, r) && i < |r| && r[i] == res && AllConsistent(tracers) &&
      DistinctTracers(tracers)
    requires o < |tracers| && m < |tracers| && o != m && tracers[o] == trcOld && tracers[m] == trc
    requires EffectivePeriod(res.item.attr, rrtime) > 0
    modifies res`item, tracers
    ensures AllConsistent(tracers) && ItemsOf(r) == old(ItemsOf(r))[i := old(res.item).(tracer := trc)]
    ensures AccountsFor(rebuilt, PlacedAttrs(ItemsOf(r), trcOld), rrtime) && rebuilt.harmonic == old(trcOld.harmonic)
    ensures LedgersOf(tracers)
         == old(LedgersOf(tracers))[m := Charge(old(LedgersOf(tracers))[m], old(res.item).attr, rrtime)][o := rebuilt]
  {
    hide AccountsFor, Charge, Consistent, PlacedAttrs, DistinctTracers, Linked;
    ghost var items := ItemsOf(r);
    var _ := AddTo(trc, res.item.attr, rrtime, tracers, m);
    assert ItemsOf(r) == items;
    Reassign(res, trc, tracers, r, i);
    rebuilt := RebuildAt(head, trcOld, tracers, rrtime, r, o);
  }

  /** Records the new tracer of an item. */
  method Reassign(res: Node<Alloc>, trc: Tracer, ghost tracers: seq<Tracer>, ghost r: seq<Node<Alloc>>, ghost i: nat)
    requires NoDuplicates(r) && i < |r| && r[i] == res
    modifies res`item
    ensures ItemsOf(r) == old(ItemsOf(r))[i := old(res.item).(tracer := trc)] &&
      LedgersOf(tracers) == old(LedgersOf(tracers))
  {
    ghost var ls := LedgersOf(tracers);
    res.item := res.item.(tracer := trc);
    assert LedgersOf(tracers) == ls;
  }

  /** The search for an item; `m` is where the tracer found stands. */
  method Seek(tracers: seq<Tracer>, a: Alloc, rrtime: nat) returns (trc: Tracer?, ghost m: nat)
    requires rrtime > 0 && AllConsistent(tracers)
    ensures trc == SoughtFor(tracers, LedgersOf(tracers), a, rrtime) && EffectivePeriod(a.attr, rrtime) > 0
    ensures trc != null ==> m < |tracers| && tracers[m] == trc
    ensures trc != null && a.affinity < 0 ==> Score(LedgersOf(tracers)[m], a.attr, rrtime) >= 0
    ensures trc != null && a.affinity >= 0 ==> trc == TracerFor(tracers, a.affinity)
  {
    hide Score, Charge, Consistent, SearchResult, Sought, TracerFor;
    EffectivePeriodPositive(a.attr, rrtime);
    trc := CheckPeriod(tracers, a.attr, a.affinity, -1, rrtime);
    m := 0;
    if trc != null {
      m := PlaceAt(tracers, LedgersOf(tracers), trc, a.attr, a.affinity, rrtime);
    }
  }

  /** The ledgers and the items between two turns. */
  datatype Stage = Stage(ls: seq<Ledger>, items: seq<Alloc>)

  /** The turn of item `i`: if it may move and the search finds another tracer, it is on that one afterwards, which
      is charged, and the ledger of the tracer it leaves accounts for what is left there; else nothing changes. */
  ghost predicate Resettled(tracers: seq<Tracer>, st: Stage, st': Stage, i: nat, rrtime: nat)
    requires rrtime > 0
  {
    && |tracers| == |st.ls| == |st'.ls| && i < |st.items|
    && var a := st.items[i];
       var t := SoughtFor(tracers, st.ls, a, rrtime);
       EffectivePeriodPositive(a.attr, rrtime);
       if a.tracer == null || a.fixed || t == null || t == a.tracer then st' == st
       else
         && st'.items == st.items[i := a.(tracer := t)]
         && forall k :: 0 <= k < |tracers| ==>
              if tracers[k] == a.tracer then
                st'.ls[k].harmonic == st.ls[k].harmonic
                && AccountsFor(st'.ls[k], PlacedAttrs(st'.items, tracers[k]), rrtime)
              else st'.ls[k] == if tracers[k] == t then Charge(st.ls[k], a.attr, rrtime) else st.ls[k]
  }

  /** The first `n` turns. */
  ghost predicate Turns(tracers: seq<Tracer>, trail: seq<Stage>, n: nat, rrtime: nat)
    requires rrtime > 0
  {
    |trail| == n + 1 && forall i :: 0 <= i < n ==> Resettled(tracers, trail[i], trail[i+1], i, rrtime)
  }

  lemma NoTurns(tracers: seq<Tracer>, st: Stage, rrtime: nat)
    requires rrtime > 0
    ensures Turns(tracers, [st], 0, rrtime)
  {
  }

  lemma TurnsGoOn(tracers: seq<Tracer>, trail: seq<Stage>, st: Stage, n: nat, rrtime: nat)
    requires rrtime > 0 && Turns(tracers, trail, n, rrtime) && Resettled(tracers, trail[n], st, n, rrtime)
    ensures Turns(tracers, trail + [st], n + 1, rrtime)
  {
    hide Resettled;
  }

  lemma ItemMoved(tracers: seq<Tracer>, ls: seq<Ledger>, items: seq<Alloc>, i: nat, o: nat, m: nat, rebuilt: Ledger,
                  rrtime: nat)
    requires rrtime > 0 && DistinctTracers(tracers) && |ls| == |tracers| && i < |items|
    requires o < |tracers| && m < |tracers| && o != m && EffectivePeriod(items[i].attr, rrtime) > 0
    requires items[i].tracer == tracers[o] && !items[i].fixed
    requires SoughtFor(tracers, ls, items[i], rrtime) == tracers[m] && rebuilt.harmonic == ls[o].harmonic
    requires AccountsFor(rebuilt, PlacedAttrs(items[i := items[i].(tracer := tracers[m])], tracers[o]), rrtime)
    ensures Resettled(tracers, Stage(ls, items),
                      Stage(ls[m := Charge(ls[m], items[i].attr, rrtime)][o := rebuilt],
                            items[i := items[i].(tracer := tracers[m])]), i, rrtime)
  {
    hide SoughtFor, Charge, AccountsFor, PlacedAttrs;
  }

  lemma ItemStays(tracers: seq<Tracer>, ls: seq<Ledger>, items: seq<Alloc>, i: nat, rrtime: nat)
    requires rrtime > 0 && |ls| == |tracers| && i < |items|
    requires items[i].tracer == null || items[i].fixed || SoughtFor(tracers, ls, items[i], rrtime) == null
      || SoughtFor(tracers, ls, items[i], rrtime) == items[i].tracer
    ensures Resettled(tracers, Stage(ls, items), Stage(ls, items), i, rrtime)
  {
    hide SoughtFor, Charge, AccountsFor, PlacedAttrs;
  }

  /** One item: if another tracer fits better, it is charged, the item moves, and the old tracer is
      rebuilt. */
  method ScrambleItem(head: Node?<Alloc>, res: Node<Alloc>, tracers: seq<Tracer>, rrtime: nat,
                      ghost r: seq<Node<Alloc>>, ghost i: nat)
    requires rrtime > 0 && IsList(head, r) && i < |r| && r[i] == res && AllConsistent(tracers) &&
      DistinctTracers(tracers)
    requires PlacedAmong(ItemsOf(r), tracers)
    modifies res`item, tracers
    ensures AllConsistent(tracers)
    ensures Scrambled(tracers, old(LedgersOf(tracers)), LedgersOf(tracers), old(ItemsOf(r)), ItemsOf(r), rrtime)
    ensures Resettled(tracers, Stage(old(LedgersOf(tracers)), old(ItemsOf(r))),
                      Stage(LedgersOf(tracers), ItemsOf(r)), i, rrtime)
  {
    hide Scrambled, Charge, Score, Consistent, SoughtFor, TracerFor, AccountsFor, PlacedAttrs, Resettled;
    ghost var ls, items := LedgersOf(tracers), ItemsOf(r);
    LedgersConsistent(tracers);
    Unscrambled(tracers, ls, items, rrtime);
    assert items[i] == res.item;
    if res.item.tracer == null || res.item.fixed {
      ItemStays(tracers, ls, items, i, rrtime);
      return;
    }
    var trc;
    ghost var m;
    trc, m := Seek(tracers, res.item, rrtime);
    if trc != null && trc != res.item.tracer {
      ghost var o: nat :| o < |tracers| && tracers[o] == res.item.tracer;
      ghost var rebuilt := MoveTo(head, res, trc, res.item.tracer, tracers, rrtime, r, i, o, m);
      ItemScrambled(tracers, ls, items, i, o, m, rebuilt, rrtime);
      ItemMoved(tracers, ls, items, i, o, m, rebuilt, rrtime);
    } else {
      ItemStays(tracers, ls, items, i, rrtime);
    }
  }

  /** Every placed item is on one of the tracers. */
  ghost predicate PlacedAmong(items: seq<Alloc>, tracers: seq<Tracer>) {
    forall i :: 0 <= i < |items| && items[i].tracer != null ==> items[i].tracer in tracers
  }

  lemma Unscrambled(tracers: seq<Tracer>, ls: seq<Ledger>, items: seq<Alloc>, rrtime: nat)
    requires rrtime > 0 && |tracers| == |ls|
    ensures Scrambled(tracers, ls, ls, items, items, rrtime)
  {
  }

  lemma ItemScrambled(tracers: seq<Tracer>, ls: seq<Ledger>, items: seq<Alloc>, i: nat, o: nat, m: nat, rebuilt: Ledger,
                      rrtime: nat)
    requires rrtime > 0 && DistinctTracers(tracers) && |ls| == |tracers| && i < |items|
    requires o < |tracers| && m < |tracers| && o != m
    requires items[i].tracer == tracers[o] && !items[i].fixed && EffectivePeriod(items[i].attr, rrtime) > 0
    requires items[i].affinity < 0 ==> Score(ls[m], items[i].attr, rrtime) >= 0
    requires items[i].affinity >= 0 ==> tracers[m] == TracerFor(tracers, items[i].affinity)
    requires AccountsFor(rebuilt, PlacedAttrs(items[i := items[i].(tracer := tracers[m])], tracers[o]), rrtime)
    requires forall k :: 0 <= k < |ls| ==> Consistent(ls[k])
    ensures Scrambled(tracers, ls, ls[m := Charge(ls[m], items[i].attr, rrtime)][o := rebuilt],
                      items, items[i := items[i].(tracer := tracers[m])], rrtime)
  {
    hide Charge, Score, AccountsFor, Exact, PlacedAttrs, LoadOf, TracerFor, Consistent;
    var items' := items[i := items[i].(tracer := tracers[m])];
    var ls' := ls[m := Charge(ls[m], items[i].attr, rrtime)][o := rebuilt];
    if items[i].affinity >= 0 {
      assert Claimed(tracers, items, tracers[m]);
    }
    forall k | 0 <= k < |ls|
      ensures Exact(tracers[k], ls[k], items, rrtime) ==> Exact(tracers[k], ls'[k], items', rrtime)
      ensures MovableKnown(items) && Sound(tracers[k], ls[k], items, rrtime) && !Claimed(tracers, items, tracers[k])
        ==> Sound(tracers[k], ls'[k], items', rrtime)
    {
      MoveItem(tracers, ls, items, i, o, m, rebuilt, k, rrtime);
    }
  }

  lemma ClaimedBefore(tracers: seq<Tracer>, first: seq<Alloc>, second: seq<Alloc>, t: Tracer)
    requires OnlyMoves(first, second, tracers) && Claimed(tracers, second, t)
    ensures Claimed(tracers, first, t)
  {
    var i :| 0 <= i < |second| && second[i].tracer != null && !second[i].fixed
      && second[i].affinity >= 0 && TracerFor(tracers, second[i].affinity) == t;
    assert first[i].affinity == second[i].affinity;
  }

  /** What holds for two scrambles in a row holds for both together. */
  lemma ScramblesCompose(tracers: seq<Tracer>, ls: seq<Ledger>, ls': seq<Ledger>, ls'': seq<Ledger>,
                         first: seq<Alloc>, second: seq<Alloc>, third: seq<Alloc>, rrtime: nat)
    requires rrtime > 0 && PlacedAmong(first, tracers)
    requires Scrambled(tracers, ls, ls', first, second, rrtime) && Scrambled(tracers, ls', ls'', second, third, rrtime)
    ensures Scrambled(tracers, ls, ls'', first, third, rrtime) && PlacedAmong(third, tracers)
  {
    hide Exact, Sound, Claimed;
    forall t: Tracer | t in tracers && Claimed(tracers, second, t) ensures Claimed(tracers, first, t) {
      ClaimedBefore(tracers, first, second, t);
    }
  }

  /** One step of the scramble, seen from its start. */
  method ScrambleStep(head: Node?<Alloc>, res: Node<Alloc>, tracers: seq<Tracer>, rrtime: nat,
                      ghost r: seq<Node<Alloc>>, ghost i: nat, ghost ls: seq<Ledger>, ghost before: seq<Alloc>)
    requires rrtime > 0 && IsList(head, r) && i < |r| && r[i] == res && AllConsistent(tracers) &&
      DistinctTracers(tracers)
    requires PlacedAmong(before, tracers) && Scrambled(tracers, ls, LedgersOf(tracers), before, ItemsOf(r), rrtime)
    modifies res`item, tracers
    ensures AllConsistent(tracers) && Scrambled(tracers, ls, LedgersOf(tracers), before, ItemsOf(r), rrtime)
    ensures Resettled(tracers, Stage(old(LedgersOf(tracers)), old(ItemsOf(r))),
                      Stage(LedgersOf(tracers), ItemsOf(r)), i, rrtime)
  {
    hide Scrambled, Consistent, PlacedAmong, DistinctTracers, IsList, Resettled;
    ghost var ls', items' := LedgersOf(tracers), ItemsOf(r);
    StaysAmong(tracers, ls, ls', before, items', rrtime);
    ScrambleItem(head, res, tracers, rrtime, r, i);
    ScramblesCompose(tracers, ls, ls', LedgersOf(tracers), before, items', ItemsOf(r), rrtime);
  }

  lemma StaysAmong(tracers: seq<Tracer>, ls: seq<Ledger>, ls': seq<Ledger>, before: seq<Alloc>, after: seq<Alloc>,
                   rrtime: nat)
    requires rrtime > 0 && PlacedAmong(before, tracers) && Scrambled(tracers, ls, ls', before, after, rrtime)
    ensures PlacedAmong(after, tracers)
  {
  }

  /** Moves placed items to better tracers, one after the other; `trail` holds the state before each turn and the
      last one. */
  method AdaptScramble(head: Node?<Alloc>, tracers: seq<Tracer>, rrtime: nat, ghost r: seq<Node<Alloc>>)
    returns (ghost trail: seq<Stage>)
    requires rrtime > 0 && IsList(head, r) && AllConsistent(tracers) && DistinctTracers(tracers)
    requires PlacedAmong(ItemsOf(r), tracers)
    modifies r`item, tracers
    ensures AllConsistent(tracers)
    ensures Scrambled(tracers, old(LedgersOf(tracers)), LedgersOf(tracers), old(ItemsOf(r)), ItemsOf(r), rrtime)
    ensures Turns(tracers, trail, |r|, rrtime) && |trail| == |r| + 1
    ensures trail[0] == Stage(old(LedgersOf(tracers)), old(ItemsOf(r)))
    ensures trail[|r|] == Stage(LedgersOf(tracers), ItemsOf(r))
  {
    hide Scrambled, Consistent, PlacedAmong, Resettled, DistinctTracers, Turns;
    ghost var ls, items := LedgersOf(tracers), ItemsOf(r);
    trail := [Stage(ls, items)];
    NoTurns(tracers, Stage(ls, items), rrtime);
    Unscrambled(tracers, ls, items, rrtime);
    var res := head;
    ghost var i := 0;
    while res != null
      invariant i <= |r| && res == (if i < |r| then r[i] else null)
      invariant AllConsistent(tracers)
      invariant Scrambled(tracers, ls, LedgersOf(tracers), items, ItemsOf(r), rrtime)
      invariant Turns(tracers, trail, i, rrtime) && |trail| == i + 1 && trail[0] == Stage(ls, items)
      invariant trail[i] == Stage(LedgersOf(tracers), ItemsOf(r))
      decreases |r| - i
    {
      ScrambleStep(head, res, tracers, rrtime, r, i, ls, items);
      TurnsGoOn(tracers, trail, Stage(LedgersOf(tracers), ItemsOf(r)), i, rrtime);
      trail := trail + [Stage(LedgersOf(tracers), ItemsOf(r))];
      res := res.next;
      i := i + 1;
    }
  }
}
