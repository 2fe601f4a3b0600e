/** The process-list update of `src/orchestrator/update.c`: a fresh scan is sorted and merged into
    the live list by rewiring its nodes. */
module ScanMerge {
  import opened ListSort
  import opened Sums
  import Comparators

  /** What the merge sees of a process: its PID, negative once deactivated, and how often its
      resources were configured. */
  datatype Proc = Proc(pid: int, configured: nat)

  /** A node of the list together with its content. */
  datatype Entry = Entry(node: Node<Proc>, proc: Proc)

  function Abs(x: int): int { if x < 0 then -x else x }

  /** `setPidResources` matches the process with the configuration; here it is counted. */
  function Configure(p: Proc): Proc { p.(configured := p.configured + 1) }

  function Deactivate(p: Proc): Proc { p.(pid := -Abs(p.pid)) }

  // ---------------------------------------------------------------------------------------
  // What a merge yields
  // ---------------------------------------------------------------------------------------

  ghost function ConfigureAll(s: seq<Entry>): seq<Entry> {
    if s == [] then [] else [s[0].(proc := Configure(s[0].proc))] + ConfigureAll(s[1..])
  }

  /** What is left of the old list when the scan is exhausted. */
  ghost function DropAll(s: seq<Entry>, track: bool): seq<Entry> {
    if s == [] || !track then [] else [s[0].(proc := Deactivate(s[0].proc))] + DropAll(s[1..], track)
  }

  /** The list after merging the sorted scan `fresh` into the list `live`. */
  ghost function Merge(live: seq<Entry>, scan: seq<Entry>, track: bool): seq<Entry>
    decreases |live| + |scan|
  {
    if live == [] then ConfigureAll(scan)
    else if scan == [] then DropAll(live, track)
    else
      var o, n := live[0], scan[0];
      var inserted := n.(proc := Configure(n.proc));
      if n.proc.pid > Abs(o.proc.pid) then [inserted] + Merge(live, scan[1..], track)
      else if track && -o.proc.pid == n.proc.pid then
        [inserted] + if Abs(o.proc.pid) == n.proc.pid then Merge(live[1..], scan[1..], track)
          else Merge(live, scan[1..], track)
      else if n.proc.pid < Abs(o.proc.pid) then
        if o.proc.pid < 0 then [o] + Merge(live[1..], scan, track)
        else if track then [o.(proc := o.proc.(pid := -o.proc.pid))] + Merge(live[1..], scan, track)
        else Merge(live[1..], scan, track)
      else [o] + Merge(live[1..], scan[1..], track)
  }

  // ---------------------------------------------------------------------------------------
  // What the merged list holds
  // ---------------------------------------------------------------------------------------

  /** Strictly descending by the absolute PID. */
  ghost predicate Descending(s: seq<Entry>) {
    (forall i :: 0 <= i < |s| ==> s[i].proc.pid != 0)
    && forall i, j :: 0 <= i < j < |s| ==> Abs(s[i].proc.pid) > Abs(s[j].proc.pid)
  }

  ghost predicate AllLive(s: seq<Entry>) {
    forall i :: 0 <= i < |s| ==> s[i].proc.pid > 0
  }

  ghost predicate HasPid(s: seq<Entry>, pid: int) {
    exists i :: 0 <= i < |s| && s[i].proc.pid == pid
  }

  /** `e` was live and is in the scan: it stays, the same node with the same content. */
  ghost predicate Stays(e: Entry, live: seq<Entry>, scan: seq<Entry>) {
    e in live && e.proc.pid > 0 && HasPid(scan, e.proc.pid)
  }

  /** Whether the `k`-th scanned process is inserted as `e`. */
  ghost predicate InsertedAt(e: Entry, k: nat, live: seq<Entry>, scan: seq<Entry>, track: bool) {
    k < |scan| && e == scan[k].(proc := Configure(scan[k].proc))
    && !HasPid(live, scan[k].proc.pid) && (track || !HasPid(live, -scan[k].proc.pid))
  }

  /** `e` is the scanned node of a process that was not live, configured once more. */
  ghost predicate Inserted(e: Entry, live: seq<Entry>, scan: seq<Entry>, track: bool) {
    exists k :: 0 <= k < |scan| && InsertedAt(e, k, live, scan, track)
  }

  /** `e` is a listed node that the scan does not have, kept with a negative PID. */
  ghost predicate Departed(e: Entry, live: seq<Entry>, scan: seq<Entry>) {
    exists k :: 0 <= k < |live| && e == live[k].(proc := Deactivate(live[k].proc)) &&
      !HasPid(scan, Abs(live[k].proc.pid))
  }

  /** Without tracking, a deactivated node is passed over while scanned PIDs at or below it remain. */
  ghost predicate Lingers(e: Entry, live: seq<Entry>, scan: seq<Entry>) {
    e in live && e.proc.pid < 0 && exists k :: 0 <= k < |scan| && scan[k].proc.pid <= -e.proc.pid
  }

  ghost predicate Merged(e: Entry, live: seq<Entry>, scan: seq<Entry>, track: bool) {
    Stays(e, live, scan) || Inserted(e, live, scan, track)
    || if track then Departed(e, live, scan) else Lingers(e, live, scan)
  }

  lemma FirstOrRest(s: seq<Entry>, pid: int)
    requires s != []
    ensures HasPid(s, pid) <==> s[0].proc.pid == pid || HasPid(s[1..], pid)
  {
    if HasPid(s[1..], pid) {
      var i :| 0 <= i < |s[1..]| && s[1..][i].proc.pid == pid;
      assert s[i+1].proc.pid == pid;
    }
    if HasPid(s, pid) && s[0].proc.pid != pid {
      var i :| 0 <= i < |s| && s[i].proc.pid == pid;
      assert s[1..][i-1].proc.pid == pid;
    }
  }

  lemma NonePast(s: seq<Entry>, pid: int)
    requires Descending(s) && (s == [] || Abs(pid) > Abs(s[0].proc.pid))
    ensures !HasPid(s, pid)
  {
  }

  lemma RestDescends(s: seq<Entry>)
    requires Descending(s) && s != []
    ensures Descending(s[1..]) && forall e :: e in s[1..] ==> e in s && Abs(e.proc.pid) < Abs(s[0].proc.pid)
    ensures forall e :: e in s <==> e == s[0] || e in s[1..]
  {
    assert s == [s[0]] + s[1..];
  }

  /** Dropping the first scanned process only concerns entries made from it. */
  lemma ScanRest(live: seq<Entry>, scan: seq<Entry>, track: bool, e: Entry)
    requires scan != []
    ensures Stays(e, live, scan)
      <==> Stays(e, live, scan[1..]) || (e in live && e.proc.pid > 0 && e.proc.pid == scan[0].proc.pid)
    ensures Inserted(e, live, scan, track)
      <==> InsertedAt(e, 0, live, scan, track) || Inserted(e, live, scan[1..], track)
    ensures Lingers(e, live, scan)
      <==> Lingers(e, live, scan[1..]) || (e in live && e.proc.pid < 0 && scan[0].proc.pid <= -e.proc.pid)
  {
    FirstOrRest(scan, e.proc.pid);
    forall k | 0 <= k < |scan[1..]| ensures scan[1..][k] == scan[k+1] {
    }
    if Inserted(e, live, scan, track) {
      var k: nat :| k < |scan| && InsertedAt(e, k, live, scan, track);
      assert k > 0 ==> InsertedAt(e, k - 1, live, scan[1..], track);
    }
    if Inserted(e, live, scan[1..], track) {
      var k: nat :| k < |scan[1..]| && InsertedAt(e, k, live, scan[1..], track);
      assert InsertedAt(e, k + 1, live, scan, track);
    }
    if Lingers(e, live, scan) {
      var k :| 0 <= k < |scan| && scan[k].proc.pid <= -e.proc.pid;
      assert k > 0 ==> scan[1..][k-1].proc.pid <= -e.proc.pid;
    }
  }

  /** A scanned process above everything listed is inserted; nothing else changes. */
  lemma InsertsFirst(live: seq<Entry>, scan: seq<Entry>, track: bool, e: Entry)
    requires Descending(live) && Descending(scan) && AllLive(scan) && scan != []
    requires live == [] || scan[0].proc.pid > Abs(live[0].proc.pid)
    ensures Merged(e, live, scan, track)
      <==> e == scan[0].(proc := Configure(scan[0].proc)) || Merged(e, live, scan[1..], track)
  {
    var n := scan[0].proc.pid;
    NonePast(live, n);
    NonePast(live, -n);
    ScanRest(live, scan, track, e);
    if live != [] {
      RestDescends(live);
    }
    hide Descending;
    forall k | 0 <= k < |live| ensures HasPid(scan, Abs(live[k].proc.pid))
      <==> HasPid(scan[1..], Abs(live[k].proc.pid)) {
      FirstOrRest(scan, Abs(live[k].proc.pid));
      assert live[k] in live;
    }
    hide HasPid;
    assert Departed(e, live, scan) <==> Departed(e, live, scan[1..]);
  }

  /** Dropping the first listed process only concerns entries made from it, as long as no scanned
      process carries its number. */
  lemma LiveRest(live: seq<Entry>, scan: seq<Entry>, track: bool, e: Entry)
    requires live != [] && Descending(live) && AllLive(scan)
    ensures Stays(e, live, scan)
      <==> Stays(e, live[1..], scan) || (e == live[0] && e.proc.pid > 0 && HasPid(scan, e.proc.pid))
    ensures Departed(e, live, scan)
      <==> (e == live[0].(proc := Deactivate(live[0].proc)) && !HasPid(scan, Abs(live[0].proc.pid)))
           || Departed(e, live[1..], scan)
    ensures Lingers(e, live, scan)
      <==> Lingers(e, live[1..], scan)
           || (e == live[0] && e.proc.pid < 0 && exists k :: 0 <= k < |scan| && scan[k].proc.pid <= -e.proc.pid)
    ensures (forall k :: 0 <= k < |scan| ==> scan[k].proc.pid != Abs(live[0].proc.pid)) ==>
      (Inserted(e, live, scan, track) <==> Inserted(e, live[1..], scan, track))
  {
    hide Merge, HasPid, Descending, Departed, InsertedAt;
    DepartedRest(live, scan, e);
    if forall k :: 0 <= k < |scan| ==> scan[k].proc.pid != Abs(live[0].proc.pid) {
      forall k: nat | k < |scan|
        ensures InsertedAt(e, k, live, scan, track) <==> InsertedAt(e, k, live[1..], scan, track)
      {
        InsertedRest(live, scan, track, e, k);
      }
    }
  }

  lemma DepartedRest(live: seq<Entry>, scan: seq<Entry>, e: Entry)
    requires live != []
    ensures Departed(e, live, scan)
      <==> (e == live[0].(proc := Deactivate(live[0].proc)) && !HasPid(scan, Abs(live[0].proc.pid)))
           || Departed(e, live[1..], scan)
  {
    hide Merge, HasPid;
    forall k | 0 <= k < |live[1..]| ensures live[1..][k] == live[k+1] {
    }
    if Departed(e, live, scan) {
      var k :| 0 <= k < |live| && e == live[k].(proc := Deactivate(live[k].proc)) &&
        !HasPid(scan, Abs(live[k].proc.pid));
      assert k > 0 ==> live[1..][k-1] == live[k];
    }
  }

  lemma InsertedRest(live: seq<Entry>, scan: seq<Entry>, track: bool, e: Entry, k: nat)
    requires live != [] && k < |scan| && scan[k].proc.pid > 0 && scan[k].proc.pid != Abs(live[0].proc.pid)
    ensures InsertedAt(e, k, live, scan, track) <==> InsertedAt(e, k, live[1..], scan, track)
  {
    hide Merge;
    FirstOrRest(live, scan[k].proc.pid);
    FirstOrRest(live, -scan[k].proc.pid);
  }

  /** A listed process above everything scanned is deactivated or dropped. */
  lemma PassesFirst(live: seq<Entry>, scan: seq<Entry>, track: bool, e: Entry)
    requires Descending(live) && Descending(scan) && AllLive(scan) && live != [] && scan != []
    requires scan[0].proc.pid < Abs(live[0].proc.pid)
    ensures Merged(e, live, scan, track)
      <==> ((track || live[0].proc.pid < 0) && e == live[0].(proc := Deactivate(live[0].proc)))
           || Merged(e, live[1..], scan, track)
  {
    LiveRest(live, scan, track, e);
    NonePast(scan, Abs(live[0].proc.pid));
    NonePast(scan, live[0].proc.pid);
    hide Stays, Inserted, Departed, Lingers, HasPid;
  }

  /** A listed process met by a scanned one stays, unless it is a tracked, deactivated one. */
  lemma MeetsFirst(live: seq<Entry>, scan: seq<Entry>, track: bool, e: Entry)
    requires Descending(live) && Descending(scan) && AllLive(scan) && live != [] && scan != []
    requires scan[0].proc.pid == Abs(live[0].proc.pid)
    ensures Merged(e, live, scan, track)
      <==> e == (if track && live[0].proc.pid < 0 then scan[0].(proc := Configure(scan[0].proc)) else live[0])
           || Merged(e, live[1..], scan[1..], track)
  {
    var o, n := live[0].proc.pid, scan[0].proc.pid;
    RestDescends(live);
    RestDescends(scan);
    NonePast(live[1..], n);
    NonePast(live[1..], -n);
    NonePast(scan[1..], n);
    FirstOrRest(live, n);
    FirstOrRest(live, -n);
    FirstOrRest(scan, n);
    ScanRest(live, scan, track, e);
    ScanRest(live[1..], scan, track, e);
    LiveRest(live, scan[1..], track, e);
    LiveRest(live, scan, track, e);
    assert forall k :: 0 <= k < |scan[1..]| ==> scan[1..][k] in scan[1..];
    forall k | 0 <= k < |live[1..]| ensures HasPid(scan, Abs(live[1..][k].proc.pid))
      <==> HasPid(scan[1..], Abs(live[1..][k].proc.pid)) {
      FirstOrRest(scan, Abs(live[1..][k].proc.pid));
      assert live[1..][k] in live[1..];
    }
    hide Descending, HasPid;
    assert Departed(e, live[1..], scan) <==> Departed(e, live[1..], scan[1..]);
    hide Departed, Inserted;
  }

  /** Once one of the lists is exhausted. */
  lemma MergeEnds(live: seq<Entry>, scan: seq<Entry>, track: bool, e: Entry)
    requires live == [] || scan == []
    ensures e in Merge(live, scan, track) <==> Merged(e, live, scan, track)
  {
    if live == [] {
      ConfiguredHolds(scan, e);
      forall k: nat | k < |scan| ensures InsertedAt(e, k, live, scan, track)
        <==> e == scan[k].(proc := Configure(scan[k].proc)) {
      }
    } else {
      DroppedHolds(live, track, e);
    }
  }

  lemma {:induction false} ConfiguredHolds(scan: seq<Entry>, e: Entry)
    ensures e in ConfigureAll(scan) <==> exists k :: 0 <= k < |scan| && e == scan[k].(proc := Configure(scan[k].proc))
  {
    if scan != [] {
      ConfiguredHolds(scan[1..], e);
    }
  }

  lemma {:induction false} DroppedHolds(live: seq<Entry>, track: bool, e: Entry)
    ensures e in DropAll(live, track)
      <==> track && exists k :: 0 <= k < |live| && e == live[k].(proc := Deactivate(live[k].proc))
  {
    if live != [] && track {
      DroppedHolds(live[1..], track, e);
    }
  }

  /** The merged list holds exactly the staying, inserted and departed entries. */
  lemma {:induction false} MergeHolds(live: seq<Entry>, scan: seq<Entry>, track: bool, e: Entry)
    requires Descending(live) && Descending(scan) && AllLive(scan)
    ensures e in Merge(live, scan, track) <==> Merged(e, live, scan, track)
    decreases |live| + |scan|
  {
    hide Merged, Descending;
    if live == [] || scan == [] {
      MergeEnds(live, scan, track, e);
    } else {
      RestDescends(live);
      RestDescends(scan);
      var o, n := live[0].proc.pid, scan[0].proc.pid;
      if n > Abs(o) {
        InsertsFirst(live, scan, track, e);
        MergeHolds(live, scan[1..], track, e);
      } else if n < Abs(o) {
        PassesFirst(live, scan, track, e);
        MergeHolds(live[1..], scan, track, e);
      } else {
        MeetsFirst(live, scan, track, e);
        MergeHolds(live[1..], scan[1..], track, e);
      }
    }
  }

  // ---------------------------------------------------------------------------------------
  // What follows for PIDs and order
  // ---------------------------------------------------------------------------------------

  lemma PutFirst(e: Entry, s: seq<Entry>)
    requires Descending(s) && e.proc.pid != 0 && forall i :: 0 <= i < |s| ==> Abs(s[i].proc.pid) < Abs(e.proc.pid)
    ensures Descending([e] + s)
  {
  }

  lemma {:induction false} MergeDescends(live: seq<Entry>, scan: seq<Entry>, track: bool)
    requires Descending(live) && Descending(scan) && AllLive(scan)
    ensures Descending(Merge(live, scan, track))
    decreases |live| + |scan|
  {
    if live == [] {
      ConfiguredDescends(scan);
    } else if scan == [] {
      DroppedDescends(live, track);
    } else {
      RestDescends(live);
      RestDescends(scan);
      var o, n := live[0].proc.pid, scan[0].proc.pid;
      var live', scan' := if n > Abs(o) then live else live[1..], if n < Abs(o) then scan else scan[1..];
      assert Descending(live') && Descending(scan') && AllLive(scan') && live[0].proc.pid != 0;
      MergeBelow(live', scan', track, if n > Abs(o) then n else Abs(o));
      var m := Merge(live', scan', track);
      hide Descending, Merge;
      MergeDescends(live', scan', track);
      if Merge(live, scan, track) != m {
        assert Merge(live, scan, track) == [Merge(live, scan, track)[0]] + m by {
          MergeStep(live, scan, track);
        }
        PutFirst(Merge(live, scan, track)[0], m);
      }
    }
  }

  /** One step of a merge: at most one entry is put in front of the rest. */
  lemma MergeStep(live: seq<Entry>, scan: seq<Entry>, track: bool)
    requires AllLive(scan) && live != [] && scan != []
    ensures var o, n := live[0].proc.pid, scan[0].proc.pid;
      var rest := Merge(if n > Abs(o) then live else live[1..], if n < Abs(o) then scan else scan[1..], track);
      var m := Merge(live, scan, track);
      m == rest || (m != [] && m == [m[0]] + rest && Abs(m[0].proc.pid) == if n > Abs(o) then n else Abs(o))
  {
  }

  /** Everything merged stays below a bound of both lists. */
  lemma MergeBelow(live: seq<Entry>, scan: seq<Entry>, track: bool, bound: int)
    requires Descending(live) && Descending(scan) && AllLive(scan)
    requires (live == [] || Abs(live[0].proc.pid) < bound) && (scan == [] || Abs(scan[0].proc.pid) < bound)
    ensures forall i :: 0 <= i < |Merge(live, scan, track)| ==> Abs(Merge(live, scan, track)[i].proc.pid) < bound
  {
    hide Merge, Merged, Descending;
    var m := Merge(live, scan, track);
    forall i | 0 <= i < |m| ensures Abs(m[i].proc.pid) < bound {
      MergeHolds(live, scan, track, m[i]);
      MergedBelow(m[i], live, scan, track, bound);
    }
  }

  lemma MergedBelow(e: Entry, live: seq<Entry>, scan: seq<Entry>, track: bool, bound: int)
    requires Descending(live) && Descending(scan) && AllLive(scan) && Merged(e, live, scan, track)
    requires (live == [] || Abs(live[0].proc.pid) < bound) && (scan == [] || Abs(scan[0].proc.pid) < bound)
    ensures Abs(e.proc.pid) < bound
  {
    hide Merge, HasPid;
  }

  lemma {:induction false} ConfiguredDescends(s: seq<Entry>)
    requires Descending(s)
    ensures Descending(ConfigureAll(s)) && |ConfigureAll(s)| == |s|
    ensures forall i :: 0 <= i < |s| ==> ConfigureAll(s)[i].proc.pid == s[i].proc.pid
  {
    if s != [] {
      RestDescends(s);
      ConfiguredDescends(s[1..]);
    }
  }

  lemma {:induction false} DroppedDescends(s: seq<Entry>, track: bool)
    requires Descending(s)
    ensures Descending(DropAll(s, track)) && (track ==> |DropAll(s, track)| == |s|)
    ensures track ==> forall i :: 0 <= i < |s| ==> Abs(DropAll(s, track)[i].proc.pid) == Abs(s[i].proc.pid)
  {
    if s != [] && track {
      RestDescends(s);
      DroppedDescends(s[1..], track);
    }
  }

  lemma PidOf(s: seq<Entry>, e: Entry)
    requires e in s
    ensures HasPid(s, e.proc.pid)
  {
  }

  /** Which PIDs are live after a merge, for any list and any scan. */
  lemma LivePids(live: seq<Entry>, scan: seq<Entry>, track: bool, p: int)
    requires Descending(live) && Descending(scan) && AllLive(scan) && p > 0
    ensures HasPid(Merge(live, scan, track), p) <==> HasPid(scan, p) && (track || !HasPid(live, -p))
  {
    var m := Merge(live, scan, track);
    if HasPid(m, p) {
      var i :| 0 <= i < |m| && m[i].proc.pid == p;
      MergeHolds(live, scan, track, m[i]);
      assert Stays(m[i], live, scan) || Inserted(m[i], live, scan, track);
    }
    if HasPid(scan, p) && (track || !HasPid(live, -p)) {
      var k: nat :| k < |scan| && scan[k].proc.pid == p;
      if HasPid(live, p) {
        var i :| 0 <= i < |live| && live[i].proc.pid == p;
        assert Stays(live[i], live, scan);
        MergeHolds(live, scan, track, live[i]);
        PidOf(m, live[i]);
      } else {
        var e := scan[k].(proc := Configure(scan[k].proc));
        assert InsertedAt(e, k, live, scan, track);
        MergeHolds(live, scan, track, e);
        PidOf(m, e);
      }
    }
  }

  /** The live PIDs are the scanned ones exactly when departed processes are tracked or none of the
      scanned ones is listed as deactivated. */
  lemma ScannedIsLiveIff(live: seq<Entry>, scan: seq<Entry>, track: bool)
    requires Descending(live) && Descending(scan) && AllLive(scan)
    ensures (forall p :: p > 0 ==> (HasPid(Merge(live, scan, track), p) <==> HasPid(scan, p)))
      <==> track || forall k :: 0 <= k < |scan| ==> !HasPid(live, -scan[k].proc.pid)
  {
    forall p | p > 0
      ensures HasPid(Merge(live, scan, track), p) <==> HasPid(scan, p) && (track || !HasPid(live, -p))
    {
      LivePids(live, scan, track, p);
    }
    forall k | 0 <= k < |scan| ensures HasPid(scan, scan[k].proc.pid) {
    }
  }

  /** Without tracking, a deactivated node 5 keeps the returned process 5 out of the list. */
  lemma DeactivatedHidesReturned(a: Node<Proc>, b: Node<Proc>)
    ensures var live, scan := [Entry(a, Proc(-5, 1))], [Entry(b, Proc(5, 0))];
      Merge(live, scan, false) == live && !HasPid(live, 5) && HasPid(scan, 5)
  {
    var live, scan := [Entry(a, Proc(-5, 1))], [Entry(b, Proc(5, 0))];
    assert Merge(live[1..], scan[1..], false) == [];
    assert scan[0].proc.pid == 5;
  }

  /** With tracking, the deactivated PIDs are exactly the known ones that the scan does not have. */
  lemma TrackedPids(live: seq<Entry>, scan: seq<Entry>, p: int)
    requires Descending(live) && Descending(scan) && AllLive(scan) && p > 0
    ensures HasPid(Merge(live, scan, true), -p) <==> (HasPid(live, p) || HasPid(live, -p)) && !HasPid(scan, p)
  {
    var m := Merge(live, scan, true);
    if HasPid(m, -p) {
      var i :| 0 <= i < |m| && m[i].proc.pid == -p;
      MergeHolds(live, scan, true, m[i]);
      assert Departed(m[i], live, scan);
    }
    if (HasPid(live, p) || HasPid(live, -p)) && !HasPid(scan, p) {
      var k :| 0 <= k < |live| && (live[k].proc.pid == p || live[k].proc.pid == -p);
      var e := live[k].(proc := Deactivate(live[k].proc));
      assert Departed(e, live, scan);
      MergeHolds(live, scan, true, e);
      PidOf(m, e);
    }
  }

  // ---------------------------------------------------------------------------------------
  // Whole runs
  // ---------------------------------------------------------------------------------------

  /** A sorted scan of processes that have not been configured yet. */
  ghost predicate ValidScan(s: seq<Entry>) {
    Descending(s) && AllLive(s) && forall i :: 0 <= i < |s| ==> s[i].proc.configured == 0
  }

  /** The list after a sequence of scans, starting from the empty one. */
  ghost function Run(scans: seq<seq<Entry>>, track: bool): seq<Entry> {
    if scans == [] then [] else Merge(Run(scans[..|scans|-1], track), scans[|scans|-1], track)
  }

  ghost predicate EverScanned(scans: seq<seq<Entry>>, p: int) {
    exists i :: 0 <= i < |scans| && HasPid(scans[i], p)
  }

  /** `e` is the node its process arrived with in scan `j`, configured once; every scan since then
      has had the process. */
  ghost predicate ArrivedIn(e: Entry, j: nat, scans: seq<seq<Entry>>) {
    && j < |scans| && (exists k :: 0 <= k < |scans[j]| && e == scans[j][k].(proc := Configure(scans[j][k].proc)))
    && (forall i :: j <= i < |scans| ==> HasPid(scans[i], e.proc.pid))
    && (j == 0 || !HasPid(scans[j-1], e.proc.pid))
  }

  ghost predicate IsDeactivated(s: seq<Entry>, p: int) { HasPid(s, -p) }

  /** What a list owes to the scans it has seen. */
  ghost predicate Tracks(list: seq<Entry>, scans: seq<seq<Entry>>, track: bool) {
    && Descending(list) && (forall i :: 0 <= i < |list| ==> list[i].proc.configured == 1)
    // live are exactly the processes of the last scan
    && (forall p :: p > 0 ==> (HasPid(list, p) <==> scans != [] && HasPid(scans[|scans|-1], p)))
    // deactivated are, with tracking, all others ever scanned, else none
    && (forall p :: p > 0 ==>
         (IsDeactivated(list, p) <==> track && EverScanned(scans, p) && !HasPid(scans[|scans|-1], p)))
    // live processes keep the node they arrived with
    && (forall e :: e in list && e.proc.pid > 0 ==> exists j :: 0 <= j < |scans| && ArrivedIn(e, j, scans))
  }

  /** Every run of scans keeps the list as it should be. */
  lemma {:induction false} RunTracks(scans: seq<seq<Entry>>, track: bool)
    requires forall i :: 0 <= i < |scans| ==> ValidScan(scans[i])
    ensures Tracks(Run(scans, track), scans, track)
  {
    if scans != [] {
      var n := |scans| - 1;
      RunTracks(scans[..n], track);
      OneMoreScan(Run(scans[..n], track), scans[..n], scans[n], track);
      assert scans == scans[..n] + [scans[n]];
    } else {
      assert Run(scans, track) == [] && forall p :: !EverScanned(scans, p) && !HasPid([], p);
    }
  }

  lemma OneMoreScan(live: seq<Entry>, scans: seq<seq<Entry>>, scan: seq<Entry>, track: bool)
    requires Tracks(live, scans, track) && ValidScan(scan)
    ensures Tracks(Merge(live, scan, track), scans + [scan], track)
  {
    var m, all := Merge(live, scan, track), scans + [scan];
    assert all[|all|-1] == scan;
    MergeDescends(live, scan, track);
    hide Merge, Descending, HasPid, IsDeactivated, EverScanned, ArrivedIn;
    forall i | 0 <= i < |m| ensures m[i].proc.configured == 1 {
      MergeHolds(live, scan, track, m[i]);
      ConfiguredOnce(m[i], live, scan, track);
    }
    forall p | p > 0 ensures HasPid(m, p) <==> all != [] && HasPid(all[|all|-1], p) {
      LiveAsScanned(live, scans, scan, track, p);
    }
    forall p | p > 0 ensures IsDeactivated(m, p) <==> track && EverScanned(all, p) && !HasPid(all[|all|-1], p) {
      DepartedPids(live, scans, scan, track, p);
    }
    forall e | e in m && e.proc.pid > 0 ensures exists j :: 0 <= j < |all| && ArrivedIn(e, j, all) {
      MergeHolds(live, scan, track, e);
      Arrives(e, live, scans, scan, track);
    }
  }

  lemma ConfiguredOnce(e: Entry, live: seq<Entry>, scan: seq<Entry>, track: bool)
    requires Merged(e, live, scan, track) && ValidScan(scan)
    requires forall i :: 0 <= i < |live| ==> live[i].proc.configured == 1
    ensures e.proc.configured == 1
  {
  }

  lemma EverScannedLater(scans: seq<seq<Entry>>, scan: seq<Entry>, p: int)
    ensures EverScanned(scans + [scan], p) <==> EverScanned(scans, p) || HasPid(scan, p)
  {
    var all := scans + [scan];
    assert all[|scans|] == scan;
    if EverScanned(scans, p) {
      var i :| 0 <= i < |scans| && HasPid(scans[i], p);
      assert HasPid(all[i], p);
    }
  }

  lemma LiveAsScanned(live: seq<Entry>, scans: seq<seq<Entry>>, scan: seq<Entry>, track: bool, p: int)
    requires Tracks(live, scans, track) && ValidScan(scan) && p > 0
    ensures HasPid(Merge(live, scan, track), p) <==> HasPid(scan, p)
  {
    LivePids(live, scan, track, p);
    assert IsDeactivated(live, p) <==> HasPid(live, -p);
  }

  lemma DepartedPids(live: seq<Entry>, scans: seq<seq<Entry>>, scan: seq<Entry>, track: bool, p: int)
    requires Tracks(live, scans, track) && ValidScan(scan) && p > 0
    ensures IsDeactivated(Merge(live, scan, track), p) <==> track && EverScanned(scans + [scan], p) && !HasPid(scan, p)
  {
    EverScannedLater(scans, scan, p);
    assert HasPid(live, p) || (track && HasPid(live, -p)) <==> (track && EverScanned(scans, p)) || HasPid(live, p);
    if track {
      TrackedPids(live, scan, p);
      assert HasPid(live, p) ==> EverScanned(scans, p);
    } else if HasPid(Merge(live, scan, track), -p) {
      assert IsDeactivated(live, p) <==> HasPid(live, -p);
      var m := Merge(live, scan, track);
      var i :| 0 <= i < |m| && m[i].proc.pid == -p;
      MergeHolds(live, scan, track, m[i]);
      assert Lingers(m[i], live, scan);
      PidOf(live, m[i]);
    }
  }

  lemma Arrives(e: Entry, live: seq<Entry>, scans: seq<seq<Entry>>, scan: seq<Entry>, track: bool)
    requires Tracks(live, scans, track) && ValidScan(scan) && Merged(e, live, scan, track) && e.proc.pid > 0
    ensures exists j :: 0 <= j < |scans + [scan]| && ArrivedIn(e, j, scans + [scan])
  {
    var all := scans + [scan];
    hide Descending, EverScanned;
    if Stays(e, live, scan) {
      var j :| 0 <= j < |scans| && ArrivedIn(e, j, scans);
      assert all[j] == scans[j] && (j > 0 ==> all[j-1] == scans[j-1]);
      assert ArrivedIn(e, j, all);
    } else {
      var k: nat :| k < |scan| && InsertedAt(e, k, live, scan, track);
      assert HasPid(scan, e.proc.pid);
      assert all[|scans|] == scan && e == all[|scans|][k].(proc := Configure(all[|scans|][k].proc));
      assert scans != [] ==> all[|scans|-1] == scans[|scans|-1];
      assert ArrivedIn(e, |scans|, all);
    }
  }

  // ---------------------------------------------------------------------------------------
  // The merge on the heap
  // ---------------------------------------------------------------------------------------

  ghost function Entries(r: seq<Node<Proc>>): (es: seq<Entry>)
    reads r`item
    ensures |es| == |r| && forall i :: 0 <= i < |es| ==> es[i] == Entry(r[i], r[i].item)
  {
    if r == [] then [] else Entries(r[..|r|-1]) + [Entry(r[|r|-1], r[|r|-1].item)]
  }

  /** The lists in the middle of a merge: `done` leads into `rest`, and `scan` is a list of its own. */
  ghost predicate Splicing(done: seq<Node<Proc>>, rest: seq<Node<Proc>>, scan: seq<Node<Proc>>)
    reads done`next, rest`next, scan`next
  {
    done != [] && Apart(done, rest, scan) && Linked(done, Head(rest, null)) && Linked(rest, null) && Linked(scan, null)
  }

  lemma TakeScanned<T>(done: seq<Node<T>>, rest: seq<Node<T>>, scan: seq<Node<T>>)
    requires Apart(done, rest, scan) && scan != []
    ensures Apart(done + [scan[0]], rest, scan[1..]) && Apart(done, rest, scan[1..])
  {
    assert scan == [scan[0]] + scan[1..];
    assert scan[0] in scan && scan[0] !in scan[1..] && scan[0] !in done && scan[0] !in rest;
    assert forall a :: a in scan[1..] ==> a in scan;
    assert forall i :: 0 <= i < |done| ==> done[i] in done;
  }

  lemma TakeListed<T>(done: seq<Node<T>>, rest: seq<Node<T>>, scan: seq<Node<T>>)
    requires Apart(done, rest, scan) && rest != []
    ensures Apart(done + [rest[0]], rest[1..], scan) && Apart(done, rest[1..], scan)
  {
    ApartKeep(done, rest, scan);
    assert rest == [rest[0]] + rest[1..];
    assert forall a :: a in rest[1..] ==> a in rest;
  }

  /** Changes the content of one node. */
  method Assign(node: Node<Proc>, p: Proc, ghost a: seq<Node<Proc>>, ghost b: seq<Node<Proc>>, ghost c: seq<Node<Proc>>)
    requires node !in a && node !in b && node !in c
    modifies node`item
    ensures node.item == p
    ensures Entries(a) == old(Entries(a)) && Entries(b) == old(Entries(b)) && Entries(c) == old(Entries(c))
  {
    assert forall i :: 0 <= i < |a| ==> a[i] in a;
    assert forall i :: 0 <= i < |b| ==> b[i] in b;
    assert forall i :: 0 <= i < |c| ==> c[i] in c;
    node.item := p;
  }

  /** Links the first scanned node behind `tail`. */
  method LinkIn(tail: Node<Proc>, lnew: Node<Proc>,
                ghost done: seq<Node<Proc>>, ghost rest: seq<Node<Proc>>, ghost scan: seq<Node<Proc>>)
    returns (lnew': Node?<Proc>)
    requires Splicing(done, rest, scan) && tail == done[|done|-1] && scan != [] && lnew == scan[0]
    modifies tail`next, lnew`next
    ensures Splicing(done + [lnew], rest, scan[1..]) && lnew' == Head(scan[1..], null)
  {
    TakeScanned(done, rest, scan);
    assert tail in done && lnew in scan;
    assert forall i :: 0 <= i < |done| ==> done[i] in done;
    assert forall i :: 0 <= i < |rest| ==> rest[i] in rest;
    assert forall i :: 0 <= i < |scan[1..]| ==> scan[1..][i] in scan[1..];
    var tmp := tail.next;
    tail.next := lnew;
    lnew' := lnew.next;
    lnew.next := tmp;
  }

  /** Links the first scanned node behind `tail` and configures it. */
  method Insert(tail: Node<Proc>, lnew: Node<Proc>,
                ghost done: seq<Node<Proc>>, ghost rest: seq<Node<Proc>>, ghost scan: seq<Node<Proc>>)
    returns (lnew': Node?<Proc>)
    requires Splicing(done, rest, scan) && tail == done[|done|-1] && scan != [] && lnew == scan[0]
    modifies tail`next, lnew`next, lnew`item
    ensures Splicing(done + [lnew], rest, scan[1..]) && lnew' == Head(scan[1..], null)
    ensures Entries(done + [lnew]) == old(Entries(done)) + [Entry(lnew, Configure(old(lnew.item)))]
    ensures Entries(rest) == old(Entries(rest)) && Entries(scan[1..]) == old(Entries(scan))[1..]
  {
    hide Linked;
    TakeScanned(done, rest, scan);
    assert lnew in scan && lnew !in scan[1..];
    lnew' := LinkIn(tail, lnew, done, rest, scan);
    Assign(lnew, Configure(lnew.item), done, rest, scan[1..]);
  }

  /** Unlinks the node behind `tail`. */
  method PopNext(tail: Node<Proc>, ghost done: seq<Node<Proc>>, ghost rest: seq<Node<Proc>>,
                 ghost scan: seq<Node<Proc>>)
    requires Splicing(done, rest, scan) && tail == done[|done|-1] && rest != []
    modifies tail`next
    ensures Splicing(done, rest[1..], scan) && tail.next == Head(rest[1..], null)
    ensures Entries(done) == old(Entries(done)) && Entries(rest[1..]) == old(Entries(rest))[1..]
    ensures Entries(scan) == old(Entries(scan))
  {
    TakeListed(done, rest, scan);
    assert tail in done;
    assert forall i :: 0 <= i < |done| ==> done[i] in done;
    assert forall i :: 0 <= i < |rest| ==> rest[i] in rest;
    assert forall i :: 0 <= i < |scan| ==> scan[i] in scan;
    assert tail.next == rest[0];
    tail.next := tail.next.next;
  }

  /** Passing over the first listed node. */
  lemma PassOver(done: seq<Node<Proc>>, rest: seq<Node<Proc>>, scan: seq<Node<Proc>>)
    requires Splicing(done, rest, scan) && rest != []
    ensures Splicing(done + [rest[0]], rest[1..], scan) && rest[0].next == Head(rest[1..], null)
    ensures Entries(done + [rest[0]]) == Entries(done) + [Entry(rest[0], rest[0].item)]
    ensures Entries(rest[1..]) == Entries(rest)[1..]
  {
    TakeListed(done, rest, scan);
  }

  /** Changes the first listed node and passes over it. */
  method PassChanged(next: Node<Proc>, p: Proc, ghost done: seq<Node<Proc>>, ghost rest: seq<Node<Proc>>,
                     ghost scan: seq<Node<Proc>>)
    requires Splicing(done, rest, scan) && rest != [] && next == rest[0]
    modifies next`item
    ensures Splicing(done + [next], rest[1..], scan) && next.next == Head(rest[1..], null)
    ensures Entries(done + [next]) == old(Entries(done)) + [Entry(next, p)]
    ensures Entries(rest[1..]) == old(Entries(rest))[1..] && Entries(scan) == old(Entries(scan))
  {
    hide Linked;
    TakeListed(done, rest, scan);
    assert next in rest && next !in rest[1..];
    Assign(next, p, done, rest[1..], scan);
    PassOver(done, rest, scan);
  }

  /** The scanned node is not needed: its process is listed already. */
  lemma PopScanned(done: seq<Node<Proc>>, rest: seq<Node<Proc>>, scan: seq<Node<Proc>>)
    requires Splicing(done, rest, scan) && scan != []
    ensures Splicing(done, rest, scan[1..]) && scan[0].next == Head(scan[1..], null)
    ensures Entries(scan[1..]) == Entries(scan)[1..]
  {
    TakeScanned(done, rest, scan);
  }

  /** All nodes in play: listed, scanned or released. */
  ghost function AllNodes(done: seq<Node<Proc>>, rest: seq<Node<Proc>>, scan: seq<Node<Proc>>,
                          freed: seq<Node<Proc>>): multiset<Node<Proc>> {
    multiset(done) + multiset(rest) + multiset(scan) + multiset(freed)
  }

  lemma NodesListed(done: seq<Node<Proc>>, rest: seq<Node<Proc>>, scan: seq<Node<Proc>>, freed: seq<Node<Proc>>)
    requires rest != []
    ensures AllNodes(done + [rest[0]], rest[1..], scan, freed) == AllNodes(done, rest, scan, freed)
    ensures AllNodes(done, rest[1..], scan, freed + [rest[0]]) == AllNodes(done, rest, scan, freed)
  {
    assert rest == [rest[0]] + rest[1..];
  }

  lemma NodesScanned(done: seq<Node<Proc>>, rest: seq<Node<Proc>>, scan: seq<Node<Proc>>, freed: seq<Node<Proc>>)
    requires scan != []
    ensures AllNodes(done + [scan[0]], rest, scan[1..], freed) == AllNodes(done, rest, scan, freed)
    ensures AllNodes(done, rest, scan[1..], freed + [scan[0]]) == AllNodes(done, rest, scan, freed)
  {
    assert scan == [scan[0]] + scan[1..];
  }

  /** The state of a merge that is to end in `target`: no node of `all` is lost, listed twice or
      released while listed. */
  ghost predicate Merging(done: seq<Node<Proc>>, rest: seq<Node<Proc>>, scan: seq<Node<Proc>>, freed: seq<Node<Proc>>,
                          all: multiset<Node<Proc>>, target: seq<Entry>, track: bool)
    reads done, rest, scan
  {
    && Splicing(done, rest, scan)
    && AllNodes(done, rest, scan, freed) == all
    && Entries(done) + Merge(Entries(rest), Entries(scan), track) == target
  }

  /** Where a merge stands once the first scanned entry is inserted. */
  lemma InsertSettled(live: seq<Entry>, scan: seq<Entry>, track: bool)
    requires live != [] && scan != []
    requires scan[0].proc.pid > Abs(live[0].proc.pid) || (track && -live[0].proc.pid == scan[0].proc.pid)
    ensures Merge(live, scan, track) == [scan[0].(proc := Configure(scan[0].proc))]
      + Merge(if track && Abs(live[0].proc.pid) == scan[0].proc.pid then live[1..] else live, scan[1..], track)
  {
  }

  /** Where a merge stands once the first listed entry is passed over or dropped. */
  lemma PassSettled(live: seq<Entry>, scan: seq<Entry>, track: bool)
    requires live != [] && scan != []
    requires scan[0].proc.pid < Abs(live[0].proc.pid) && !(track && -live[0].proc.pid == scan[0].proc.pid)
    ensures live[0].proc.pid < 0 ==> Merge(live, scan, track) == [live[0]] + Merge(live[1..], scan, track)
    ensures live[0].proc.pid >= 0 && track ==>
      Merge(live, scan, track) == [live[0].(proc := Deactivate(live[0].proc))] + Merge(live[1..], scan, track)
    ensures live[0].proc.pid >= 0 && !track ==> Merge(live, scan, track) == Merge(live[1..], scan, track)
  {
  }

  /** One entry more is settled. */
  lemma OneSettled(done: seq<Entry>, e: Entry, rest: seq<Entry>)
    ensures done + ([e] + rest) == (done + [e]) + rest
  {
  }

  /** A scanned node is inserted; before that, the deactivated node it replaces is released. */
  method InsertRound(tail: Node<Proc>, lnew: Node<Proc>, track: bool,
                     ghost done: seq<Node<Proc>>, ghost rest: seq<Node<Proc>>, ghost scan: seq<Node<Proc>>,
                     ghost freed: seq<Node<Proc>>, ghost all: multiset<Node<Proc>>, ghost target: seq<Entry>)
    returns (lnew': Node?<Proc>, ghost rest': seq<Node<Proc>>, ghost freed': seq<Node<Proc>>)
    requires Merging(done, rest, scan, freed, all, target, track) && rest != [] && scan != []
    requires tail == done[|done|-1] && lnew == scan[0]
    requires lnew.item.pid > Abs(rest[0].item.pid) || (track && rest[0].item.pid * -1 == lnew.item.pid)
    modifies tail`next, lnew`next, lnew`item
    ensures Merging(done + [lnew], rest', scan[1..], freed', all, target, track)
    ensures lnew' == Head(scan[1..], null) && (rest' == rest || rest' == rest[1..])
  {
    ghost var de, ro, rn := Entries(done), Entries(rest), Entries(scan);
    InsertSettled(ro, rn, track);
    NodesListed(done, rest, scan, freed);
    rest', freed' := rest, freed;
    assert tail.next == rest[0];
    hide Splicing, Entries, Merge, Linked, Apart, AllNodes;
    if track && Abs(tail.next.item.pid) == lnew.item.pid {
      rest', freed' := rest[1..], freed + [rest[0]];
      PopNext(tail, done, rest, scan);
    }
    ghost var m := Merge(Entries(rest'), rn[1..], track);
    NodesScanned(done, rest', scan, freed');
    lnew' := Insert(tail, lnew, done, rest', scan);
    OneSettled(de, Entry(lnew, lnew.item), m);
  }

  /** Deactivates the first listed node and passes over it. */
  method DeactivateNext(next: Node<Proc>, track: bool,
                        ghost done: seq<Node<Proc>>, ghost rest: seq<Node<Proc>>, ghost scan: seq<Node<Proc>>,
                        ghost freed: seq<Node<Proc>>, ghost all: multiset<Node<Proc>>, ghost target: seq<Entry>)
    requires Merging(done, rest, scan, freed, all, target, track) && rest != [] && next == rest[0]
    requires Merge(Entries(rest), Entries(scan), track)
          == [Entry(next, Deactivate(next.item))] + Merge(Entries(rest)[1..], Entries(scan), track)
    modifies next`item
    ensures Merging(done + [next], rest[1..], scan, freed, all, target, track) && next.next == Head(rest[1..], null)
  {
    ghost var de, m := Entries(done), Merge(Entries(rest)[1..], Entries(scan), track);
    NodesListed(done, rest, scan, freed);
    hide Splicing, Entries, Merge, AllNodes;
    PassChanged(next, Deactivate(next.item), done, rest, scan);
    OneSettled(de, Entry(next, next.item), m);
  }

  /** Releases the first listed node. */
  method ReleaseNext(tail: Node<Proc>, track: bool,
                     ghost done: seq<Node<Proc>>, ghost rest: seq<Node<Proc>>, ghost scan: seq<Node<Proc>>,
                     ghost freed: seq<Node<Proc>>, ghost all: multiset<Node<Proc>>, ghost target: seq<Entry>)
    requires Merging(done, rest, scan, freed, all, target, track) && rest != [] && tail == done[|done|-1]
    requires Merge(Entries(rest), Entries(scan), track) == Merge(Entries(rest)[1..], Entries(scan), track)
    modifies tail`next
    ensures Merging(done, rest[1..], scan, freed + [rest[0]], all, target, track) && tail.next == Head(rest[1..], null)
  {
    NodesListed(done, rest, scan, freed);
    hide Splicing, Entries, Merge, AllNodes;
    PopNext(tail, done, rest, scan);
  }

  /** Passes over the first listed node. */
  lemma PassNext(track: bool, done: seq<Node<Proc>>, rest: seq<Node<Proc>>, scan: seq<Node<Proc>>,
                 freed: seq<Node<Proc>>, all: multiset<Node<Proc>>, target: seq<Entry>)
    requires Merging(done, rest, scan, freed, all, target, track) && rest != []
    requires Merge(Entries(rest), Entries(scan), track)
          == [Entry(rest[0], rest[0].item)] + Merge(Entries(rest)[1..], Entries(scan), track)
    ensures Merging(done + [rest[0]], rest[1..], scan, freed, all, target, track)
  {
    NodesListed(done, rest, scan, freed);
    hide Splicing, Entries, Merge, AllNodes;
    PassOver(done, rest, scan);
    OneSettled(Entries(done), Entry(rest[0], rest[0].item), Merge(Entries(rest)[1..], Entries(scan), track));
  }

  /** A listed node above the scan: passed over if deactivated already, else deactivated or released. */
  method PassRound(tail: Node<Proc>, lnew: Node<Proc>, track: bool,
                   ghost done: seq<Node<Proc>>, ghost rest: seq<Node<Proc>>, ghost scan: seq<Node<Proc>>,
                   ghost freed: seq<Node<Proc>>, ghost all: multiset<Node<Proc>>, ghost target: seq<Entry>)
    returns (tail': Node<Proc>, ghost done': seq<Node<Proc>>, ghost freed': seq<Node<Proc>>)
    requires Merging(done, rest, scan, freed, all, target, track) && rest != [] && scan != []
    requires tail == done[|done|-1] && lnew == scan[0]
    requires lnew.item.pid < Abs(rest[0].item.pid) && !(track && rest[0].item.pid * -1 == lnew.item.pid)
    modifies tail`next, rest`item
    ensures Merging(done', rest[1..], scan, freed', all, target, track)
    ensures done' != [] && tail' == done'[|done'|-1] && done'[0] == done[0] && (tail' == tail || tail' == rest[0])
  {
    PassSettled(Entries(rest), Entries(scan), track);
    assert tail.next == rest[0] && done != [];
    hide Merging, Merge;
    var next := tail.next;
    tail', done', freed' := next, done + [next], freed;
    if 0 > next.item.pid {
      PassNext(track, done, rest, scan, freed, all, target);
    } else if track {
      DeactivateNext(next, track, done, rest, scan, freed, all, target);
    } else {
      ReleaseNext(tail, track, done, rest, scan, freed, all, target);
      tail', done', freed' := tail, done, freed + [next];
    }
  }

  /** A listed node whose process is in the scan: it stays, the scanned one is released. */
  method MeetRound(tail: Node<Proc>, lnew: Node<Proc>, track: bool,
                   ghost done: seq<Node<Proc>>, ghost rest: seq<Node<Proc>>, ghost scan: seq<Node<Proc>>,
                   ghost freed: seq<Node<Proc>>, ghost all: multiset<Node<Proc>>, ghost target: seq<Entry>)
    returns (tail': Node<Proc>, lnew': Node?<Proc>)
    requires Merging(done, rest, scan, freed, all, target, track) && rest != [] && scan != []
    requires tail == done[|done|-1] && lnew == scan[0]
    requires lnew.item.pid == Abs(rest[0].item.pid) && !(track && rest[0].item.pid * -1 == lnew.item.pid)
    ensures Merging(done + [rest[0]], rest[1..], scan[1..], freed + [lnew], all, target, track)
    ensures tail' == rest[0] && lnew' == Head(scan[1..], null)
  {
    ghost var de, ro, rn := Entries(done), Entries(rest), Entries(scan);
    assert Merge(ro, rn, track) == [ro[0]] + Merge(ro[1..], rn[1..], track);
    NodesListed(done, rest, scan, freed);
    NodesScanned(done + [rest[0]], rest[1..], scan, freed);
    assert tail.next == rest[0];
    ghost var m := Merge(ro[1..], rn[1..], track);
    PopScanned(done, rest, scan);
    PassOver(done, rest, scan[1..]);
    hide Splicing, Entries, Merge, Linked, Apart, AllNodes;
    lnew' := lnew.next;
    tail' := tail.next;
    OneSettled(de, Entry(rest[0], rest[0].item), m);
  }

  /** One round of the main loop. */
  method MergeRound(tail: Node<Proc>, lnew: Node<Proc>, track: bool,
                    ghost done: seq<Node<Proc>>, ghost rest: seq<Node<Proc>>, ghost scan: seq<Node<Proc>>,
                    ghost freed: seq<Node<Proc>>, ghost all: multiset<Node<Proc>>, ghost target: seq<Entry>)
    returns (tail': Node<Proc>, lnew': Node?<Proc>,
             ghost done': seq<Node<Proc>>, ghost rest': seq<Node<Proc>>, ghost scan': seq<Node<Proc>>,
             ghost freed': seq<Node<Proc>>)
    requires Merging(done, rest, scan, freed, all, target, track) && rest != [] && scan != []
    requires done != [] && tail == done[|done|-1] && tail.next == rest[0] && lnew == scan[0]
    modifies tail`next, rest`item, lnew`next, lnew`item
    ensures Merging(done', rest', scan', freed', all, target, track)
    ensures done' != [] && tail' == done'[|done'|-1] && tail'.next == Head(rest', null) && lnew' == Head(scan', null)
    ensures done'[0] == done[0] && (tail' == tail || tail' == rest[0] || tail' == lnew)
    ensures (rest' == rest || rest' == rest[1..]) && (scan' == scan || scan' == scan[1..]) &&
      |rest'| + |scan'| < |rest| + |scan|
  {
    hide Merging, AllNodes, Merge;
    var next := tail.next;
    if lnew.item.pid > Abs(next.item.pid) || (track && next.item.pid * -1 == lnew.item.pid) {
      lnew', rest', freed' := InsertRound(tail, lnew, track, done, rest, scan, freed, all, target);
      tail', done', scan' := lnew, done + [lnew], scan[1..];
    } else if lnew.item.pid < Abs(next.item.pid) {
      tail', done', freed' := PassRound(tail, lnew, track, done, rest, scan, freed, all, target);
      lnew', rest', scan' := lnew, rest[1..], scan;
    } else {
      tail', lnew' := MeetRound(tail, lnew, track, done, rest, scan, freed, all, target);
      done', rest', scan', freed' := done + [next], rest[1..], scan[1..], freed + [lnew];
    }
    NextListed(track, done', rest', scan', freed', all, target);
  }

  /** The last settled node leads into the rest of the list. */
  lemma NextListed(track: bool, done: seq<Node<Proc>>, rest: seq<Node<Proc>>, scan: seq<Node<Proc>>,
                   freed: seq<Node<Proc>>, all: multiset<Node<Proc>>, target: seq<Entry>)
    requires Merging(done, rest, scan, freed, all, target, track)
    ensures done != [] && done[|done|-1].next == Head(rest, null)
  {
  }

  /** The main loop: as long as both lists have elements. */
  method MergeBoth(dummy: Node<Proc>, first: Node?<Proc>, track: bool, ghost s: seq<Node<Proc>>,
                   ghost scan0: seq<Node<Proc>>, ghost all: multiset<Node<Proc>>, ghost target: seq<Entry>)
    returns (tail: Node<Proc>, lnew: Node?<Proc>,
             ghost done: seq<Node<Proc>>, ghost rest: seq<Node<Proc>>, ghost scan: seq<Node<Proc>>,
             ghost freed: seq<Node<Proc>>)
    requires Merging([dummy], s, scan0, [], all, target, track) && first == Head(scan0, null)
    modifies dummy`next, s`next, s`item, scan0`next, scan0`item
    ensures Merging(done, rest, scan, freed, all, target, track)
    ensures (rest == [] || scan == []) && done != [] && tail == done[|done|-1] && lnew == Head(scan, null) &&
      done[0] == dummy
    ensures (exists i :: 0 <= i <= |s| && rest == s[i..]) && (exists j :: 0 <= j <= |scan0| && scan == scan0[j..])
    ensures tail == dummy || tail in s || tail in scan0
  {
    hide Merging, AllNodes, Merge;
    ghost var i: nat, j: nat := 0, 0;
    tail, lnew, done, rest, scan, freed := dummy, first, [dummy], s, scan0, [];
    NextListed(track, done, rest, scan, freed, all, target);
    while tail.next != null && lnew != null
      invariant Merging(done, rest, scan, freed, all, target, track)
      invariant i <= |s| && rest == s[i..]
      invariant j <= |scan0| && scan == scan0[j..]
      invariant done != [] && tail == done[|done|-1] && tail.next == Head(rest, null) && lnew == Head(scan, null) &&
        done[0] == dummy
      invariant tail == dummy || tail in s || tail in scan0
      decreases |rest| + |scan|
    {
      assert rest[0] == s[i] && scan[0] == scan0[j];
      ghost var rest', scan';
      tail, lnew, done, rest', scan', freed := MergeRound(tail, lnew, track, done, rest, scan, freed, all, target);
      i, j := if rest' == rest then i else i + 1, if scan' == scan then j else j + 1;
      rest, scan := rest', scan';
    }
  }

  lemma DropSettled(live: seq<Entry>, track: bool)
    requires live != []
    ensures Merge(live, [], track)
      == (if track then [live[0].(proc := Deactivate(live[0].proc))] else []) + Merge(live[1..], [], track)
  {
  }

  /** What is still listed once the scan is exhausted is deactivated or released. */
  method DropRest(tail0: Node<Proc>, track: bool, ghost s: seq<Node<Proc>>,
                  ghost done0: seq<Node<Proc>>, ghost rest0: seq<Node<Proc>>, ghost scan: seq<Node<Proc>>,
                  ghost freed0: seq<Node<Proc>>, ghost all: multiset<Node<Proc>>, ghost target: seq<Entry>)
    returns (tail: Node<Proc>, ghost done: seq<Node<Proc>>, ghost freed: seq<Node<Proc>>)
    requires Merging(done0, rest0, scan, freed0, all, target, track) && (rest0 == [] || scan == [])
    requires done0 != [] && tail0 == done0[|done0|-1]
    modifies tail0`next, rest0`next, rest0`item
    ensures Merging(done, [], scan, freed, all, target, track)
    ensures done != [] && tail == done[|done|-1] && done[0] == done0[0] && (tail == tail0 || tail in rest0)
  {
    tail, done, freed := tail0, done0, freed0;
    ghost var rest, i := rest0, 0;
    hide Merging, Merge;
    NextListed(track, done, rest, scan, freed, all, target);
    while tail.next != null
      invariant Merging(done, rest, scan, freed, all, target, track) && (rest == [] || scan == [])
      invariant i <= |rest0| && rest == rest0[i..]
      invariant done != [] && tail == done[|done|-1] && tail.next == Head(rest, null) && done[0] == done0[0]
      invariant tail == tail0 || tail in rest0
      decreases |rest|
    {
      assert rest[0] == rest0[i];
      DropSettled(Entries(rest), track);
      var next := tail.next;
      if track {
        DeactivateNext(next, track, done, rest, scan, freed, all, target);
        tail, done := next, done + [next];
      } else {
        ReleaseNext(tail, track, done, rest, scan, freed, all, target);
        freed := freed + [next];
      }
      rest, i := rest[1..], i + 1;
      NextListed(track, done, rest, scan, freed, all, target);
    }
  }

  /** The state while the rest of the scan, already linked in, is configured. */
  ghost predicate Configuring(done: seq<Node<Proc>>, rest: seq<Node<Proc>>, freed: seq<Node<Proc>>,
                              all: multiset<Node<Proc>>, target: seq<Entry>)
    reads done, rest
  {
    Splicing(done, rest, []) && AllNodes(done, rest, [], freed) == all &&
      Entries(done) + ConfigureAll(Entries(rest)) == target
  }

  /** The rest of the scan becomes the rest of the list. */
  method LinkRest(tail: Node<Proc>, lnew: Node?<Proc>, track: bool,
                  ghost done: seq<Node<Proc>>, ghost scan: seq<Node<Proc>>, ghost freed: seq<Node<Proc>>,
                  ghost all: multiset<Node<Proc>>, ghost target: seq<Entry>)
    requires Merging(done, [], scan, freed, all, target, track) && lnew == Head(scan, null)
    requires done != [] && tail == done[|done|-1]
    modifies tail`next
    ensures Configuring(done, scan, freed, all, target)
  {
    ScanAsRest(track, done, scan, freed, all, target);
    hide Entries, ConfigureAll, Merge, AllNodes, Merging;
    assert tail in done && forall i :: 0 <= i < |scan| ==> scan[i] in scan;
    assert forall i :: 0 <= i < |done| - 1 ==> done[i] != tail;
    if lnew != null {
      tail.next := lnew;
    }
  }

  lemma ScanAsRest(track: bool, done: seq<Node<Proc>>, scan: seq<Node<Proc>>, freed: seq<Node<Proc>>,
                   all: multiset<Node<Proc>>, target: seq<Entry>)
    requires Merging(done, [], scan, freed, all, target, track)
    ensures AllNodes(done, scan, [], freed) == all && Entries(done) + ConfigureAll(Entries(scan)) == target
    ensures Splicing(done, [], scan) && Apart(done, scan, [])
  {
  }

  /** Configures one node. */
  method ConfigureNext(next: Node<Proc>, ghost done: seq<Node<Proc>>, ghost rest: seq<Node<Proc>>,
                       ghost freed: seq<Node<Proc>>, ghost all: multiset<Node<Proc>>, ghost target: seq<Entry>)
    requires Configuring(done, rest, freed, all, target) && rest != [] && next == rest[0]
    modifies next`item
    ensures Configuring(done + [next], rest[1..], freed, all, target) && next.next == Head(rest[1..], null)
  {
    ghost var de, m := Entries(done), ConfigureAll(Entries(rest)[1..]);
    assert ConfigureAll(Entries(rest)) == [Entry(next, Configure(next.item))] + m;
    NodesListed(done, rest, [], freed);
    hide Splicing, Entries, ConfigureAll, AllNodes;
    PassChanged(next, Configure(next.item), done, rest, []);
    OneSettled(de, Entry(next, next.item), m);
  }

  /** Appends the rest of the scan. */
  method AppendRest(tail0: Node<Proc>, lnew: Node?<Proc>, track: bool,
                    ghost done0: seq<Node<Proc>>, ghost scan: seq<Node<Proc>>, ghost freed: seq<Node<Proc>>,
                    ghost all: multiset<Node<Proc>>, ghost target: seq<Entry>)
    returns (ghost done: seq<Node<Proc>>)
    requires Merging(done0, [], scan, freed, all, target, track) && lnew == Head(scan, null)
    requires done0 != [] && tail0 == done0[|done0|-1]
    modifies tail0`next, scan`next, scan`item
    ensures Configuring(done, [], freed, all, target) && done != [] && done[0] == done0[0]
  {
    hide Merging, Configuring;
    LinkRest(tail0, lnew, track, done0, scan, freed, all, target);
    var tail := tail0;
    done := done0;
    ghost var rest, i := scan, 0;
    NextConfigured(done, rest, freed, all, target);
    while tail.next != null
      invariant Configuring(done, rest, freed, all, target)
      invariant i <= |scan| && rest == scan[i..]
      invariant done != [] && tail == done[|done|-1] && tail.next == Head(rest, null) && done[0] == done0[0]
      decreases |rest|
    {
      assert rest[0] == scan[i];
      ConfigureNext(tail.next, done, rest, freed, all, target);
      tail, done, rest, i := tail.next, done + [tail.next], rest[1..], i + 1;
      NextConfigured(done, rest, freed, all, target);
    }
  }

  lemma NextConfigured(done: seq<Node<Proc>>, rest: seq<Node<Proc>>, freed: seq<Node<Proc>>, all: multiset<Node<Proc>>,
                       target: seq<Entry>)
    requires Configuring(done, rest, freed, all, target)
    ensures done != [] && done[|done|-1].next == Head(rest, null)
  {
  }

  lemma MergeStart(dummy: Node<Proc>, track: bool, s: seq<Node<Proc>>, scan: seq<Node<Proc>>)
    requires IsList(dummy.next, s) && NoDuplicates(scan) && Linked(scan, null)
    requires (forall a :: a in s ==> a !in scan && a != dummy) && dummy !in scan
    ensures Merging([dummy], s, scan, [], AllNodes([dummy], s, scan, []),
                    [Entry(dummy, dummy.item)] + Merge(Entries(s), Entries(scan), track), track)
  {
    assert Entries([dummy]) == [Entry(dummy, dummy.item)];
  }

  lemma Cancel(d: Node<Proc>, a: multiset<Node<Proc>>, b: multiset<Node<Proc>>)
    requires multiset{d} + a == multiset{d} + b
    ensures a == b
  {
    assert a == (multiset{d} + a) - multiset{d} && b == (multiset{d} + b) - multiset{d};
  }

  lemma NodesEnd(dummy: Node<Proc>, done: seq<Node<Proc>>, freed: seq<Node<Proc>>, s: seq<Node<Proc>>,
                 scan: seq<Node<Proc>>)
    requires AllNodes(done, [], [], freed) == AllNodes([dummy], s, scan, []) && done != [] && done[0] == dummy
    ensures multiset(done[1..]) + multiset(freed) == multiset(s) + multiset(scan)
  {
    assert done == [dummy] + done[1..];
    var d, f, a, b := multiset(done[1..]), multiset(freed), multiset(s), multiset(scan);
    assert multiset(done) == multiset{dummy} + d && multiset([dummy]) == multiset{dummy};
    assert AllNodes(done, [], [], freed) == multiset{dummy} + (d + f);
    assert AllNodes([dummy], s, scan, []) == multiset{dummy} + (a + b);
    Cancel(dummy, multiset(done[1..]) + multiset(freed), multiset(s) + multiset(scan));
  }

  lemma MergeEnd(done: seq<Node<Proc>>, freed: seq<Node<Proc>>, all: multiset<Node<Proc>>, d: Entry, merged: seq<Entry>)
    requires Configuring(done, [], freed, all, [d] + merged) && done != []
    ensures IsList(done[0].next, done[1..]) && Entries(done[1..]) == merged && AllNodes(done, [], [], freed) == all
  {
    assert Entries(done) == [d] + merged;
    assert Entries(done[1..]) == Entries(done)[1..];
  }

  /** The merge behind the dummy node. */
  method MergeBehind(dummy: Node<Proc>, lnew: Node?<Proc>, track: bool, ghost s: seq<Node<Proc>>,
                     ghost scan: seq<Node<Proc>>, ghost target: seq<Entry>)
    returns (ghost done: seq<Node<Proc>>, ghost freed: seq<Node<Proc>>)
    requires Merging([dummy], s, scan, [], AllNodes([dummy], s, scan, []), target, track) && lnew == Head(scan, null)
    modifies dummy`next, s`next, s`item, scan`next, scan`item
    ensures Configuring(done, [], freed, AllNodes([dummy], s, scan, []), target) && done != [] && done[0] == dummy
  {
    hide Merging, Configuring, Merge, AllNodes;
    ghost var all := AllNodes([dummy], s, scan, []);
    ghost var rest, new';
    var tail, fresh';
    tail, fresh', done, rest, new', freed := MergeBoth(dummy, lnew, track, s, scan, all, target);
    assert forall i :: 0 <= i < |s| ==> s[i] in s;
    tail, done, freed := DropRest(tail, track, s, done, rest, new', freed, all, target);
    done := AppendRest(tail, fresh', track, done, new', freed, all, target);
  }

  /** Merges a sorted scan into the list. */
  method MergeScan(nhead: Node?<Proc>, lnew: Node?<Proc>, track: bool, ghost s: seq<Node<Proc>>,
                   ghost scan: seq<Node<Proc>>)
    returns (newHead: Node?<Proc>, ghost r: seq<Node<Proc>>, ghost freed: seq<Node<Proc>>)
    requires IsList(nhead, s) && IsList(lnew, scan) && forall a :: a in s ==> a !in scan
    modifies s`next, s`item, scan`next, scan`item
    ensures IsList(newHead, r) && multiset(r) + multiset(freed) == multiset(s) + multiset(scan)
    ensures Entries(r) == Merge(old(Entries(s)), old(Entries(scan)), track)
  {
    ghost var merged := Merge(Entries(s), Entries(scan), track);
    var dummy := new Node<Proc>(Proc(0, 0), nhead);
    MergeStart(dummy, track, s, scan);
    ghost var d, done := Entry(dummy, dummy.item), [];
    hide Merging, Configuring, Merge, AllNodes, IsList;
    done, freed := MergeBehind(dummy, lnew, track, s, scan, [d] + merged);
    newHead, r := dummy.next, done[1..];
    MergeEnd(done, freed, AllNodes([dummy], s, scan, []), d, merged);
    NodesEnd(dummy, done, freed, s, scan);
  }

  // ---------------------------------------------------------------------------------------
  // The update
  // ---------------------------------------------------------------------------------------

  /** Descending by PID; the difference is a C `int`. */
  function CmpPidItem(a: Proc, b: Proc): int { Comparators.ToInt32(b.pid - a.pid) }

  /** On PIDs, which are positive, the difference never wraps. */
  lemma CmpPidItemRanks(a: Proc, b: Proc)
    requires 0 < a.pid <= Comparators.INT32_MAX && 0 < b.pid <= Comparators.INT32_MAX
    ensures CmpPidItem(a, b) == b.pid - a.pid
  {
  }

  /** Distinct, positive PIDs of the scan's list. */
  ghost predicate ScanPids(es: seq<Entry>) {
    && (forall i :: 0 <= i < |es| ==> 0 < es[i].proc.pid <= Comparators.INT32_MAX)
    && forall i, j :: 0 <= i < |es| && 0 <= j < |es| && es[i].proc.pid == es[j].proc.pid ==> es[i] == es[j]
  }

  /** Sorts the scan; distinct PIDs come out strictly descending. */
  method SortScan(lnew: Node?<Proc>, ghost t: seq<Node<Proc>>) returns (head: Node?<Proc>, ghost scan: seq<Node<Proc>>)
    requires IsList(lnew, t)
    modifies t`next
    ensures IsList(head, scan) && multiset(scan) == multiset(t)
    ensures multiset(Entries(scan)) == multiset(old(Entries(t)))
    ensures old(ScanPids(Entries(t))) ==> Descending(Entries(scan)) && AllLive(Entries(scan))
  {
    var compar: Compar<Proc> := (a: Proc, b: Proc) => CmpPidItem(a, b);
    ghost var es := Entries(t);
    head, scan := QSort(lnew, compar, t);
    assert Entries(t) == es;
    ValuesPermute(t, es, scan, Entries(scan));
    if ScanPids(es) {
      PidOrder(compar, t);
      ScanDescends(compar, t, scan);
    }
  }

  lemma PidOrder(compar: Compar<Proc>, t: seq<Node<Proc>>)
    requires forall a: Proc, b: Proc :: compar(a, b) == CmpPidItem(a, b)
    requires ScanPids(Entries(t))
    ensures StrictOrder(compar, t)
  {
    forall a, b | a in t && b in t ensures Less(compar, a, b) <==> a.item.pid > b.item.pid {
      var i, j :| 0 <= i < |t| && 0 <= j < |t| && t[i] == a && t[j] == b;
      assert Entries(t)[i].proc == a.item && Entries(t)[j].proc == b.item;
      CmpPidItemRanks(a.item, b.item);
    }
  }

  lemma ScanDescends(compar: Compar<Proc>, t: seq<Node<Proc>>, scan: seq<Node<Proc>>)
    requires forall a: Proc, b: Proc :: compar(a, b) == CmpPidItem(a, b)
    requires ScanPids(Entries(t)) && multiset(scan) == multiset(t) && NoDuplicates(scan) && Sorted(compar, scan)
    ensures Descending(Entries(scan)) && AllLive(Entries(scan))
  {
    var es := Entries(scan);
    SameMembers(scan, t);
    forall i | 0 <= i < |scan| ensures 0 < es[i].proc.pid <= Comparators.INT32_MAX {
      var j :| 0 <= j < |t| && t[j] == scan[i];
      assert Entries(t)[j] == es[i];
    }
    forall i, j | 0 <= i < j < |scan| ensures es[i].proc.pid > es[j].proc.pid {
      assert !Less(compar, scan[j], scan[i]);
      CmpPidItemRanks(scan[j].item, scan[i].item);
      DistinctPids(t, scan, i, j);
    }
  }

  lemma DistinctPids(t: seq<Node<Proc>>, scan: seq<Node<Proc>>, i: nat, j: nat)
    requires ScanPids(Entries(t)) && i < j < |scan| && scan[i] != scan[j] && scan[i] in t && scan[j] in t
    ensures scan[i].item.pid != scan[j].item.pid
  {
    var k, l :| 0 <= k < |t| && 0 <= l < |t| && t[k] == scan[i] && t[l] == scan[j];
    assert Entries(t)[k] != Entries(t)[l];
  }

  /** `scanNew`: sorts the scan and merges it into the list. Every node ends up either in the list or
      released, and the list is what `Merge` makes of the old one and the sorted scan. */
  method ScanNew(nhead: Node?<Proc>, found: Node?<Proc>, track: bool, ghost s: seq<Node<Proc>>,
                 ghost t: seq<Node<Proc>>)
    returns (newHead: Node?<Proc>, ghost r: seq<Node<Proc>>, ghost freed: seq<Node<Proc>>, ghost scan: seq<Entry>)
    requires IsList(nhead, s) && IsList(found, t) && forall a :: a in s ==> a !in t
    modifies s`next, s`item, t`next, t`item
    ensures IsList(newHead, r) && multiset(r) + multiset(freed) == multiset(s) + multiset(t)
    ensures multiset(scan) == multiset(old(Entries(t)))
    ensures old(ScanPids(Entries(t))) ==> Descending(scan) && AllLive(scan)
    ensures Entries(r) == Merge(old(Entries(s)), scan, track)
  {
    hide Linked, NoDuplicates, Merge;
    ghost var es := Entries(s);
    ghost var sorted;
    var lnew;
    lnew, sorted := SortScan(found, t);
    SameMembers(sorted, t);
    assert Entries(s) == es;
    scan := Entries(sorted);
    newHead, r, freed := MergeScan(nhead, lnew, track, s, sorted);
  }
}
