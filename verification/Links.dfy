/** The consistency check of `src/lib/orchdata.c` (`checkContParam`): images, containers and PID
    entries refer to each other from both sides, and links present on one side only are completed. */
module Links {

  /** A configured image, `img_t`: the lists of its containers and PID entries. */
  class Image {
    var conts: seq<Cont>
    var pids: seq<Pid>
    constructor () { conts, pids := [], []; }
  }

  /** A configured container, `cont_t`. */
  class Cont {
    var img: Image?
    var pids: seq<Pid>
    constructor () { img, pids := null, []; }
  }

  /** A configured PID entry, `pidc_t`. */
  class Pid {
    var img: Image?
    var cont: Cont?
    constructor () { img, cont := null, null; }
  }

  datatype Item = I(img: Image) | C(cont: Cont) | P(pid: Pid)

  /** A reference from one item to another: down to a member, or back up to an owner. */
  datatype Link = Link(from: Item, to: Item) {
    function Mirror(): Link { Link(to, from) }
    function Down(): bool { Rank(from) < Rank(to) }
  }

  function Rank(x: Item): nat {
    match x
    case I(_) => 0
    case C(_) => 1
    case P(_) => 2
  }

  // ---------------------------------------------------------------------------------------
  // Repair, on sets of links
  // ---------------------------------------------------------------------------------------

  /** `m` refers back to some owner of this rank. */
  ghost predicate Owned(links: set<Link>, m: Item, rank: nat) {
    exists l :: l in links && l.from == m && Rank(l.to) == rank
  }

  /** No member has two owners of the same kind. */
  ghost predicate OneOwner(links: set<Link>) {
    forall k, l | k in links && l in links && k.from == l.from && !k.Down() && !l.Down() ::
      Rank(k.to) == Rank(l.to) ==> k == l
  }

  /** Every link of a listed item is there from both sides. */
  ghost predicate Agreed(links: set<Link>, listed: set<Item>) {
    forall l :: l in links && l.from in listed ==> l.Mirror() in links
  }

  /** A member of a listed owner refers to another owner, or another listed owner claims it too. */
  ghost predicate Conflicted(links: set<Link>, listed: set<Item>) {
    exists k, l :: k in links && l in links && k.Down() && k.from in listed && Rivals(k, l, listed)
  }

  ghost predicate Claims(links: set<Link>, listed: set<Item>, k: Link) { k in links && k.Down() && k.from in listed }

  ghost predicate Rivals(k: Link, l: Link, listed: set<Item>) {
    || (l.from == k.to && Rank(l.to) == Rank(k.from) && l.to != k.from)
    || (l.to == k.to && Rank(l.from) == Rank(k.from) && l.from != k.from && l.from in listed)
  }

  /** Links are only added, and only as mirrors of links that were there; new references back go to
      listed owners. */
  ghost predicate Repaired(before: set<Link>, after: set<Link>, listed: set<Item>) {
    before <= after
    && forall l :: l in after && l !in before ==> l.Mirror() in before && (l.Down() || l.to in listed)
  }

  /** A repair on its way: `seen` are the downward links looked at so far, `fix` the links added,
      `fil` the mismatches found. */
  ghost predicate Repairing(before: set<Link>, after: set<Link>, listed: set<Item>, seen: set<Link>, fix: nat,
                            fil: nat) {
    && Repaired(before, after, listed) && |after| == |before| + fix
    && (forall l :: l in seen ==> l in after && l.Down() && Owned(after, l.to, Rank(l.from)))
    && (fil > 0 <==> exists l :: l in seen && l.Mirror() !in after)
    && (Agreed(before, listed) ==> after == before)
  }

  lemma RepairStart(links: set<Link>, listed: set<Item>)
    ensures Repairing(links, links, listed, {}, 0, 0)
  {
  }

  lemma Added(links: set<Link>, l: Link)
    requires l !in links
    ensures |links + {l}| == |links| + 1
  {
  }

  /** A member without an owner of this kind gets the one that lists it. */
  lemma OwnerAdded(before: set<Link>, after: set<Link>, listed: set<Item>, seen: set<Link>, fix: nat, fil: nat, l: Link)
    requires Repairing(before, after, listed, seen, fix, fil)
    requires Claims(after, listed, l) && !Owned(after, l.to, Rank(l.from))
    ensures Repairing(before, after + {l.Mirror()}, listed, seen + {l}, fix + 1, fil) && l.Mirror() !in after
  {
    var after' := after + {l.Mirror()};
    assert l.Mirror() !in after;
    Added(after, l.Mirror());
    assert l in before;
    forall k | k in seen + {l} ensures k in after' && k.Down() && Owned(after', k.to, Rank(k.from)) {
      if k == l {
        assert l.Mirror() in after';
      } else {
        var o :| o in after && o.from == k.to && Rank(o.to) == Rank(k.from);
        assert o in after';
      }
    }
    forall k | k in seen ensures k.Mirror() in after' <==> k.Mirror() in after {
      assert k.Mirror() == l.Mirror() ==> k == l;
    }
  }

  /** A member with an owner of this kind is compared. */
  lemma OwnerSeen(before: set<Link>, after: set<Link>, listed: set<Item>, seen: set<Link>, fix: nat, fil: nat, l: Link)
    requires Repairing(before, after, listed, seen, fix, fil)
    requires Claims(after, listed, l) && Owned(after, l.to, Rank(l.from))
    ensures Repairing(before, after, listed, seen + {l}, fix, if l.Mirror() in after then fil else fil + 1)
  {
  }

  /** An owner that does not list its member gets it listed. */
  lemma MemberAdded(before: set<Link>, after: set<Link>, listed: set<Item>, seen: set<Link>, fix: nat, fil: nat,
                    l: Link)
    requires Repairing(before, after, listed, seen, fix, fil)
    requires l in after && !l.Down() && Rank(l.from) != Rank(l.to) && l.from in listed && l.Mirror() !in after
    ensures Repairing(before, after + {l.Mirror()}, listed, seen, fix + 1, fil)
  {
    var after' := after + {l.Mirror()};
    Added(after, l.Mirror());
    assert l in before;
    forall k | k in seen ensures k in after' && Owned(after', k.to, Rank(k.from)) {
      var o :| o in after && o.from == k.to && Rank(o.to) == Rank(k.from);
      assert o in after';
    }
    forall k | k in seen ensures k.Mirror() in after' <==> k.Mirror() in after {
      assert k.Mirror() == l.Mirror() ==> k == l;
    }
  }

  /** All links of listed items have been dealt with. */
  ghost predicate Covered(links: set<Link>, listed: set<Item>, seen: set<Link>) {
    forall l :: l in links && l.from in listed ==> l.Mirror() in links || l in seen
  }

  /** Agreement of the result rules out a conflict. */
  lemma AgreementExcludesConflict(before: set<Link>, after: set<Link>, listed: set<Item>, k: Link, l: Link)
    requires Repaired(before, after, listed) && OneOwner(after) && Agreed(after, listed)
    requires k in before && l in before && k.Down() && k.from in listed
    ensures !Rivals(k, l, listed)
  {
    assert k.Mirror() in after && l in after && (l.from in listed ==> l.Mirror() in after);
  }

  /** A mismatch comes from a conflict. */
  lemma MismatchIsConflict(before: set<Link>, after: set<Link>, listed: set<Item>, seen: set<Link>, fix: nat, fil: nat,
                           k: Link)
    requires Repairing(before, after, listed, seen, fix, fil)
    requires k in seen && k.Mirror() !in after && k.from in listed
    ensures Conflicted(before, listed)
  {
    assert k in before;
    var o :| o in after && o.from == k.to && Rank(o.to) == Rank(k.from);
    if o in before {
      assert Rivals(k, o, listed);
    } else {
      assert o.Mirror() in before && Rivals(k, o.Mirror(), listed);
    }
  }

  /** What a complete check comes to: nothing mismatched exactly when the links did not conflict, and
      exactly then all links of listed items agree. */
  lemma RepairDone(before: set<Link>, after: set<Link>, listed: set<Item>, seen: set<Link>, fix: nat, fil: nat)
    requires Repairing(before, after, listed, seen, fix, fil) && Covered(after, listed, seen) && OneOwner(after)
    requires forall l :: l in seen ==> l.from in listed
    ensures fil == 0 <==> Agreed(after, listed)
    ensures fil == 0 <==> !Conflicted(before, listed)
  {
    if fil == 0 {
      assert Agreed(after, listed);
      forall k, l | k in before && l in before && k.Down() && k.from in listed ensures !Rivals(k, l, listed) {
        AgreementExcludesConflict(before, after, listed, k, l);
      }
    } else {
      var k :| k in seen && k.Mirror() !in after;
      MismatchIsConflict(before, after, listed, seen, fix, fil, k);
    }
  }

  // ---------------------------------------------------------------------------------------
  // The links on the heap
  // ---------------------------------------------------------------------------------------

  /** A set of configuration items that refer only to each other. */
  datatype World = World(imgs: set<Image>, conts: set<Cont>, pids: set<Pid>)

  ghost function ImgConts(w: World): set<Link>
    reads w.imgs`conts
  {
    set i, c | i in w.imgs && c in i.conts :: Link(I(i), C(c))
  }

  ghost function ImgPids(w: World): set<Link>
    reads w.imgs`pids
  {
    set i, p | i in w.imgs && p in i.pids :: Link(I(i), P(p))
  }

  ghost function ContPids(w: World): set<Link>
    reads w.conts`pids
  {
    set c, p | c in w.conts && p in c.pids :: Link(C(c), P(p))
  }

  ghost function ContImg(w: World): set<Link>
    reads w.conts`img
  {
    set c | c in w.conts && c.img != null :: Link(C(c), I(c.img))
  }

  ghost function PidImg(w: World): set<Link>
    reads w.pids`img
  {
    set p | p in w.pids && p.img != null :: Link(P(p), I(p.img))
  }

  ghost function PidCont(w: World): set<Link>
    reads w.pids`cont
  {
    set p | p in w.pids && p.cont != null :: Link(P(p), C(p.cont))
  }

  ghost function Downward(w: World): set<Link>
    reads w.imgs`conts, w.imgs`pids, w.conts`pids
  {
    ImgConts(w) + ImgPids(w) + ContPids(w)
  }

  ghost function Upward(w: World): set<Link>
    reads w.conts`img, w.pids`img, w.pids`cont
  {
    ContImg(w) + PidImg(w) + PidCont(w)
  }

  ghost function LinksOf(w: World): set<Link>
    reads w.imgs, w.conts, w.pids
  {
    Downward(w) + Upward(w)
  }

  /** Every item a link leads to is part of the world. */
  ghost predicate Closed(links: set<Link>, w: World) {
    forall l :: l in links ==> Within(l.to, w)
  }

  ghost predicate Within(x: Item, w: World) {
    match x
    case I(i) => i in w.imgs
    case C(c) => c in w.conts
    case P(p) => p in w.pids
  }

  /** Completing links keeps the world closed. */
  lemma ClosedStays(before: set<Link>, w: World)
    requires Closed(before, w) && Completes(before, LinksOf(w))
    ensures Closed(LinksOf(w), w)
  {
    forall l | l in LinksOf(w) ensures Within(l.from, w) {
    }
    hide LinksOf;
    forall l | l in LinksOf(w) ensures Within(l.to, w) {
      assert l !in before ==> l.Mirror() in LinksOf(w);
    }
  }

  /** A reference back is a field of the member. */
  ghost predicate IsField(l: Link)
    reads if l.from.C? then {l.from.cont} else if l.from.P? then {l.from.pid} else {}
  {
    match (l.from, l.to)
    case (C(c), I(i)) => c.img == i
    case (P(p), I(i)) => p.img == i
    case (P(p), C(c)) => p.cont == c
    case _ => false
  }

  lemma UpIsField(w: World, l: Link)
    requires l in LinksOf(w) && !l.Down()
    ensures IsField(l)
  {
  }

  lemma LinksHaveOneOwner(w: World)
    ensures OneOwner(LinksOf(w))
  {
    hide LinksOf;
    forall k, l | k in LinksOf(w) && l in LinksOf(w) && k.from == l.from && !k.Down() && !l.Down() &&
      Rank(k.to) == Rank(l.to)
      ensures k == l
    {
      UpIsField(w, k);
      UpIsField(w, l);
    }
  }

  /** Refers a container back to an image. */
  method SetContImg(c: Cont, i: Image, ghost w: World)
    requires c in w.conts && i in w.imgs && c.img == null
    modifies c`img
    ensures c.img == i && LinksOf(w) == old(LinksOf(w)) + {Link(C(c), I(i))}
  {
    c.img := i;
    assert ContImg(w) == old(ContImg(w)) + {Link(C(c), I(i))};
  }

  method SetPidImg(p: Pid, i: Image, ghost w: World)
    requires p in w.pids && i in w.imgs && p.img == null
    modifies p`img
    ensures p.img == i && LinksOf(w) == old(LinksOf(w)) + {Link(P(p), I(i))}
  {
    p.img := i;
    assert PidImg(w) == old(PidImg(w)) + {Link(P(p), I(i))};
  }

  method SetPidCont(p: Pid, c: Cont, ghost w: World)
    requires p in w.pids && c in w.conts && p.cont == null
    modifies p`cont
    ensures p.cont == c && LinksOf(w) == old(LinksOf(w)) + {Link(P(p), C(c))}
  {
    p.cont := c;
    assert PidCont(w) == old(PidCont(w)) + {Link(P(p), C(c))};
  }

  /** Puts a container in front of an image's list. */
  method PushCont(i: Image, c: Cont, ghost w: World)
    requires i in w.imgs && c in w.conts
    modifies i`conts
    ensures i.conts == [c] + old(i.conts) && LinksOf(w) == old(LinksOf(w)) + {Link(I(i), C(c))}
  {
    i.conts := [c] + i.conts;
    assert ImgConts(w) == old(ImgConts(w)) + {Link(I(i), C(c))};
  }

  method PushImgPid(i: Image, p: Pid, ghost w: World)
    requires i in w.imgs && p in w.pids
    modifies i`pids
    ensures i.pids == [p] + old(i.pids) && LinksOf(w) == old(LinksOf(w)) + {Link(I(i), P(p))}
  {
    i.pids := [p] + i.pids;
    assert ImgPids(w) == old(ImgPids(w)) + {Link(I(i), P(p))};
  }

  method PushContPid(c: Cont, p: Pid, ghost w: World)
    requires c in w.conts && p in w.pids
    modifies c`pids
    ensures c.pids == [p] + old(c.pids) && LinksOf(w) == old(LinksOf(w)) + {Link(C(c), P(p))}
  {
    c.pids := [p] + c.pids;
    assert ContPids(w) == old(ContPids(w)) + {Link(C(c), P(p))};
  }

  // ---------------------------------------------------------------------------------------
  // One link
  // ---------------------------------------------------------------------------------------

  /** Links are only added, each next to its mirror. */
  ghost predicate Completes(before: set<Link>, after: set<Link>) {
    before <= after && forall l :: l in after && l !in before ==> l.Mirror() in after
  }

  lemma CompletesTrans(a: set<Link>, b: set<Link>, c: set<Link>)
    requires Completes(a, b) && Completes(b, c)
    ensures Completes(a, c)
  {
  }

  /** All links of these items have been dealt with, and stay so while links are completed. */
  lemma CoveredStays(a: set<Link>, b: set<Link>, listed: set<Item>, seen: set<Link>, seen': set<Link>)
    requires Covered(a, listed, seen) && Completes(a, b) && seen <= seen'
    ensures Covered(b, listed, seen')
  {
  }

  /** What a link between two items says about their fields. */
  lemma ContImgLink(w: World, c: Cont, i: Image)
    requires c in w.conts
    ensures Owned(LinksOf(w), C(c), Rank(I(i))) <==> c.img != null
    ensures Link(C(c), I(i)) in LinksOf(w) <==> c.img == i
  {
    if c.img != null {
      assert Link(C(c), I(c.img)) in ContImg(w);
    }
  }

  lemma PidImgLink(w: World, p: Pid, i: Image)
    requires p in w.pids
    ensures Owned(LinksOf(w), P(p), Rank(I(i))) <==> p.img != null
    ensures Link(P(p), I(i)) in LinksOf(w) <==> p.img == i
  {
    if p.img != null {
      assert Link(P(p), I(p.img)) in PidImg(w);
    }
  }

  lemma PidContLink(w: World, p: Pid, c: Cont)
    requires p in w.pids
    ensures Owned(LinksOf(w), P(p), Rank(C(c))) <==> p.cont != null
    ensures Link(P(p), C(c)) in LinksOf(w) <==> p.cont == c
  {
    if p.cont != null {
      assert Link(P(p), C(p.cont)) in PidCont(w);
    }
  }

  lemma CompletesOne(links: set<Link>, l: Link)
    requires l in links
    ensures Completes(links, links) && Completes(links, links + {l.Mirror()})
  {
  }

  /** The state of the check between its steps; `start` are the links some steps ago. */
  ghost predicate Checking(w: World, start: set<Link>, before: set<Link>, listed: set<Item>, seen: set<Link>, fix: nat,
                           fil: nat)
    reads w.imgs, w.conts, w.pids
  {
    && Repairing(before, LinksOf(w), listed, seen, fix, fil) && Completes(start, LinksOf(w)) && Closed(LinksOf(w), w)
    && forall l :: l in seen ==> l.from in listed
  }

  /** What a step may rely on for a link it looks at. */
  lemma CheckingOf(w: World, start: set<Link>, before: set<Link>, listed: set<Item>, seen: set<Link>, fix: nat,
                   fil: nat, l: Link)
    requires Checking(w, start, before, listed, seen, fix, fil) && l in LinksOf(w) && l.from in listed
    ensures Repairing(before, LinksOf(w), listed, seen, fix, fil) && Within(l.to, w)
    ensures l.Down() ==> Claims(LinksOf(w), listed, l)
  {
  }

  /** The state after a step that looked at `l` and left the links alone or completed `l`. */
  lemma CheckingGoesOn(w: World, links: set<Link>, start: set<Link>, before: set<Link>, listed: set<Item>,
                       seen: set<Link>, seen': set<Link>, fix: nat, fil: nat, l: Link)
    requires Completes(start, links) && Closed(links, w) && l in links && forall k :: k in seen' ==> k.from in listed
    requires LinksOf(w) == links || LinksOf(w) == links + {l.Mirror()}
    requires Repairing(before, LinksOf(w), listed, seen', fix, fil)
    ensures Checking(w, start, before, listed, seen', fix, fil)
  {
    hide Repairing, LinksOf, Closed;
    CompletesOne(links, l);
    CompletesTrans(start, links, LinksOf(w));
    ClosedStays(links, w);
  }

  lemma CheckingParts(w: World, start: set<Link>, before: set<Link>, listed: set<Item>, seen: set<Link>, fix: nat,
                      fil: nat, l: Link)
    requires Checking(w, start, before, listed, seen, fix, fil) && l.from in listed
    ensures Completes(start, LinksOf(w)) && Closed(LinksOf(w), w) && forall k :: k in seen + {l} ==> k.from in listed
  {
  }

  /** A container in an image's list: refers back to it, if to nothing yet. */
  method LinkCont(img: Image, cont: Cont, fix: nat, fil: nat, ghost w: World, ghost start: set<Link>,
                  ghost before: set<Link>, ghost listed: set<Item>, ghost seen: set<Link>)
    returns (fix': nat, fil': nat)
    requires img in w.imgs && I(img) in listed && cont in img.conts &&
      Checking(w, start, before, listed, seen, fix, fil)
    modifies w.conts`img
    ensures Checking(w, start, before, listed, seen + {Link(I(img), C(cont))}, fix', fil')
    ensures cont.img == if old(cont.img) == null then img else old(cont.img)
    ensures fix' == fix + (if old(cont.img) == null then 1 else 0) && fil' == fil + (if cont.img == img then 0 else 1)
    ensures LinksOf(w) == old(LinksOf(w)) + {Link(C(cont), I(img))}
      || (cont.img == old(cont.img) && LinksOf(w) == old(LinksOf(w)))
  {
    hide Repairing, LinksOf, Owned, Claims, Completes, Closed, Checking, Rank;
    fix', fil' := fix, fil;
    ghost var l, links := Link(I(img), C(cont)), LinksOf(w);
    ImgContLink(w, img, cont);
    CheckingOf(w, start, before, listed, seen, fix, fil, l);
    CheckingParts(w, start, before, listed, seen, fix, fil, l);
    ContImgLink(w, cont, img);
    if cont.img == null {
      OwnerAdded(before, links, listed, seen, fix, fil, l);
      SetContImg(cont, img, w);
      fix' := fix + 1;
    } else {
      OwnerSeen(before, links, listed, seen, fix, fil, l);
    }
    if cont.img != img {
      fil' := fil + 1;
    }
    CheckingGoesOn(w, links, start, before, listed, seen, seen + {l}, fix', fil', l);
  }

  /** A PID entry in an image's list. */
  method LinkImgPid(img: Image, pid: Pid, fix: nat, fil: nat, ghost w: World, ghost start: set<Link>,
                    ghost before: set<Link>, ghost listed: set<Item>, ghost seen: set<Link>)
    returns (fix': nat, fil': nat)
    requires img in w.imgs && I(img) in listed && pid in img.pids && Checking(w, start, before, listed, seen, fix, fil)
    modifies w.pids`img
    ensures Checking(w, start, before, listed, seen + {Link(I(img), P(pid))}, fix', fil')
    ensures pid.img == if old(pid.img) == null then img else old(pid.img)
    ensures fix' == fix + (if old(pid.img) == null then 1 else 0) && fil' == fil + (if pid.img == img then 0 else 1)
    ensures LinksOf(w) == old(LinksOf(w)) + {Link(P(pid), I(img))}
      || (pid.img == old(pid.img) && LinksOf(w) == old(LinksOf(w)))
  {
    hide Repairing, LinksOf, Owned, Claims, Completes, Closed, Checking, Rank;
    fix', fil' := fix, fil;
    ghost var l, links := Link(I(img), P(pid)), LinksOf(w);
    ImgPidLink(w, img, pid);
    CheckingOf(w, start, before, listed, seen, fix, fil, l);
    CheckingParts(w, start, before, listed, seen, fix, fil, l);
    PidImgLink(w, pid, img);
    if pid.img == null {
      OwnerAdded(before, links, listed, seen, fix, fil, l);
      SetPidImg(pid, img, w);
      fix' := fix + 1;
    } else {
      OwnerSeen(before, links, listed, seen, fix, fil, l);
    }
    if pid.img != img {
      fil' := fil + 1;
    }
    CheckingGoesOn(w, links, start, before, listed, seen, seen + {l}, fix', fil', l);
  }

  /** A PID entry in a container's list. */
  method LinkContPid(cont: Cont, pid: Pid, fix: nat, fil: nat, ghost w: World, ghost start: set<Link>,
                     ghost before: set<Link>, ghost listed: set<Item>, ghost seen: set<Link>)
    returns (fix': nat, fil': nat)
    requires cont in w.conts && C(cont) in listed && pid in cont.pids &&
      Checking(w, start, before, listed, seen, fix, fil)
    modifies w.pids`cont
    ensures Checking(w, start, before, listed, seen + {Link(C(cont), P(pid))}, fix', fil')
    ensures pid.cont == if old(pid.cont) == null then cont else old(pid.cont)
    ensures fix' == fix + (if old(pid.cont) == null then 1 else 0) && fil' == fil + (if pid.cont == cont then 0 else 1)
    ensures LinksOf(w) == old(LinksOf(w)) + {Link(P(pid), C(cont))}
      || (pid.cont == old(pid.cont) && LinksOf(w) == old(LinksOf(w)))
  {
    hide Repairing, LinksOf, Owned, Claims, Completes, Closed, Checking, Rank;
    fix', fil' := fix, fil;
    ghost var l, links := Link(C(cont), P(pid)), LinksOf(w);
    ContPidLink(w, cont, pid);
    CheckingOf(w, start, before, listed, seen, fix, fil, l);
    CheckingParts(w, start, before, listed, seen, fix, fil, l);
    PidContLink(w, pid, cont);
    if pid.cont == null {
      OwnerAdded(before, links, listed, seen, fix, fil, l);
      SetPidCont(pid, cont, w);
      fix' := fix + 1;
    } else {
      OwnerSeen(before, links, listed, seen, fix, fil, l);
    }
    if pid.cont != cont {
      fil' := fil + 1;
    }
    CheckingGoesOn(w, links, start, before, listed, seen, seen + {l}, fix', fil', l);
  }

  lemma ImgContLink(w: World, i: Image, c: Cont)
    requires i in w.imgs
    ensures Link(I(i), C(c)) in LinksOf(w) <==> c in i.conts
    ensures Link(I(i), C(c)).Down()
  {
  }

  lemma ImgPidLink(w: World, i: Image, p: Pid)
    requires i in w.imgs
    ensures Link(I(i), P(p)) in LinksOf(w) <==> p in i.pids
    ensures Link(I(i), P(p)).Down()
  {
  }

  lemma ContPidLink(w: World, c: Cont, p: Pid)
    requires c in w.conts
    ensures Link(C(c), P(p)) in LinksOf(w) <==> p in c.pids
    ensures Link(C(c), P(p)).Down()
  {
  }

  /** Whether a list holds an item, searched from its front. */
  method Holds<T(==)>(list: seq<T>, x: T) returns (found: bool)
    ensures found <==> x in list
  {
    var k := 0;
    while k < |list| && list[k] != x
      invariant 0 <= k <= |list| && x !in list[..k]
    {
      k := k + 1;
    }
    found := k < |list|;
  }

  /** A container that refers to an image: the image lists it. */
  method ListCont(cont: Cont, fix: nat, fil: nat, ghost w: World, ghost start: set<Link>,
                  ghost before: set<Link>, ghost listed: set<Item>, ghost seen: set<Link>)
    returns (fix': nat)
    requires cont in w.conts && C(cont) in listed && Checking(w, start, before, listed, seen, fix, fil)
    modifies w.imgs`conts
    ensures Checking(w, start, before, listed, seen, fix', fil)
    ensures cont.img != null ==> Link(I(cont.img), C(cont)) in LinksOf(w)
    ensures fix <= fix' <= fix + 1
    ensures LinksOf(w) == old(LinksOf(w)) + if cont.img == null then {} else {Link(I(cont.img), C(cont))}
  {
    hide LinksOf, Checking, Repairing, Closed, Owned, Completes, Claims;
    fix' := fix;
    if cont.img != null {
      var img: Image := cont.img;
      ghost var l, links := Link(C(cont), I(img)), LinksOf(w);
      ContImgLink(w, cont, img);
      CheckingOf(w, start, before, listed, seen, fix, fil, l);
      CheckingParts(w, start, before, listed, seen, fix, fil, l);
      ImgContLink(w, img, cont);
      var found := Holds(img.conts, cont);
      if !found {
        MemberAdded(before, links, listed, seen, fix, fil, l);
        PushCont(img, cont, w);
        fix' := fix + 1;
        CheckingGoesOn(w, links, start, before, listed, seen, seen, fix', fil, l);
      }
    }
  }

  /** A PID entry that refers to an image: the image lists it. */
  method ListImgPid(pid: Pid, fix: nat, fil: nat, ghost w: World, ghost start: set<Link>,
                    ghost before: set<Link>, ghost listed: set<Item>, ghost seen: set<Link>)
    returns (fix': nat)
    requires pid in w.pids && P(pid) in listed && Checking(w, start, before, listed, seen, fix, fil)
    modifies w.imgs`pids
    ensures Checking(w, start, before, listed, seen, fix', fil)
    ensures pid.img != null ==> Link(I(pid.img), P(pid)) in LinksOf(w)
    ensures fix <= fix' <= fix + 1
    ensures LinksOf(w) == old(LinksOf(w)) + if pid.img == null then {} else {Link(I(pid.img), P(pid))}
  {
    hide LinksOf, Checking, Repairing, Closed, Owned, Completes, Claims;
    fix' := fix;
    if pid.img != null {
      var img: Image := pid.img;
      ghost var l, links := Link(P(pid), I(img)), LinksOf(w);
      PidImgLink(w, pid, img);
      CheckingOf(w, start, before, listed, seen, fix, fil, l);
      CheckingParts(w, start, before, listed, seen, fix, fil, l);
      ImgPidLink(w, img, pid);
      var found := Holds(img.pids, pid);
      if !found {
        MemberAdded(before, links, listed, seen, fix, fil, l);
        PushImgPid(img, pid, w);
        fix' := fix + 1;
        CheckingGoesOn(w, links, start, before, listed, seen, seen, fix', fil, l);
      }
    }
  }

  /** A PID entry that refers to a container: the container lists it. */
  method ListContPid(pid: Pid, fix: nat, fil: nat, ghost w: World, ghost start: set<Link>,
                     ghost before: set<Link>, ghost listed: set<Item>, ghost seen: set<Link>)
    returns (fix': nat)
    requires pid in w.pids && P(pid) in listed && Checking(w, start, before, listed, seen, fix, fil)
    modifies w.conts`pids
    ensures Checking(w, start, before, listed, seen, fix', fil)
    ensures pid.cont != null ==> Link(C(pid.cont), P(pid)) in LinksOf(w)
    ensures fix <= fix' <= fix + 1
    ensures LinksOf(w) == old(LinksOf(w)) + if pid.cont == null then {} else {Link(C(pid.cont), P(pid))}
  {
    hide LinksOf, Checking, Repairing, Closed, Owned, Completes, Claims;
    fix' := fix;
    if pid.cont != null {
      var cont: Cont := pid.cont;
      ghost var l, links := Link(P(pid), C(cont)), LinksOf(w);
      PidContLink(w, pid, cont);
      CheckingOf(w, start, before, listed, seen, fix, fil, l);
      CheckingParts(w, start, before, listed, seen, fix, fil, l);
      ContPidLink(w, cont, pid);
      var found := Holds(cont.pids, pid);
      if !found {
        MemberAdded(before, links, listed, seen, fix, fil, l);
        PushContPid(cont, pid, w);
        fix' := fix + 1;
        CheckingGoesOn(w, links, start, before, listed, seen, seen, fix', fil, l);
      }
    }
  }

  // ---------------------------------------------------------------------------------------
  // The whole check
  // ---------------------------------------------------------------------------------------

  lemma CoveredImage(w: World, img: Image, seen: set<Link>)
    requires img in w.imgs
    requires forall k :: 0 <= k < |img.conts| ==> Link(I(img), C(img.conts[k])) in seen
    requires forall k :: 0 <= k < |img.pids| ==> Link(I(img), P(img.pids[k])) in seen
    ensures Covered(LinksOf(w), {I(img)}, seen)
  {
  }

  lemma CoveredCont(w: World, cont: Cont, seen: set<Link>)
    requires cont in w.conts && (cont.img != null ==> Link(I(cont.img), C(cont)) in LinksOf(w))
    requires forall k :: 0 <= k < |cont.pids| ==> Link(C(cont), P(cont.pids[k])) in seen
    ensures Covered(LinksOf(w), {C(cont)}, seen)
  {
  }

  lemma CoveredPid(w: World, pid: Pid, seen: set<Link>)
    requires pid in w.pids && (pid.img != null ==> Link(I(pid.img), P(pid)) in LinksOf(w))
    requires pid.cont != null ==> Link(C(pid.cont), P(pid)) in LinksOf(w)
    ensures Covered(LinksOf(w), {P(pid)}, seen)
  {
  }

  /** Both lists of an image. */
  method CheckImage(img: Image, fix: nat, fil: nat, ghost w: World, ghost start: set<Link>,
                    ghost before: set<Link>, ghost listed: set<Item>, ghost seen: set<Link>)
    returns (fix': nat, fil': nat, ghost seen': set<Link>)
    requires img in w.imgs && I(img) in listed && Checking(w, start, before, listed, seen, fix, fil)
    modifies w.conts`img, w.pids`img
    ensures Checking(w, start, before, listed, seen', fix', fil') && seen <= seen'
    ensures Covered(LinksOf(w), {I(img)}, seen')
  {
    hide LinksOf, Checking, Covered;
    fix', fil', seen' := fix, fil, seen;
    for k := 0 to |img.conts|
      invariant Checking(w, start, before, listed, seen', fix', fil') && seen <= seen'
      invariant forall j :: 0 <= j < k ==> Link(I(img), C(img.conts[j])) in seen'
    {
      fix', fil' := LinkCont(img, img.conts[k], fix', fil', w, start, before, listed, seen');
      seen' := seen' + {Link(I(img), C(img.conts[k]))};
    }
    for k := 0 to |img.pids|
      invariant Checking(w, start, before, listed, seen', fix', fil') && seen <= seen'
      invariant forall j :: 0 <= j < |img.conts| ==> Link(I(img), C(img.conts[j])) in seen'
      invariant forall j :: 0 <= j < k ==> Link(I(img), P(img.pids[j])) in seen'
    {
      fix', fil' := LinkImgPid(img, img.pids[k], fix', fil', w, start, before, listed, seen');
      seen' := seen' + {Link(I(img), P(img.pids[k]))};
    }
    CoveredImage(w, img, seen');
  }

  /** A container: its image's list, then its own. */
  method CheckCont(cont: Cont, fix: nat, fil: nat, ghost w: World, ghost start: set<Link>,
                   ghost before: set<Link>, ghost listed: set<Item>, ghost seen: set<Link>)
    returns (fix': nat, fil': nat, ghost seen': set<Link>)
    requires cont in w.conts && C(cont) in listed && Checking(w, start, before, listed, seen, fix, fil)
    modifies w.imgs`conts, w.pids`cont
    ensures Checking(w, start, before, listed, seen', fix', fil') && seen <= seen'
    ensures Covered(LinksOf(w), {C(cont)}, seen')
  {
    hide LinksOf, Checking, Covered;
    fix', fil', seen' := fix, fil, seen;
    fix' := ListCont(cont, fix', fil', w, start, before, listed, seen');
    for k := 0 to |cont.pids|
      invariant Checking(w, start, before, listed, seen', fix', fil') && seen <= seen'
      invariant cont.img != null ==> Link(I(cont.img), C(cont)) in LinksOf(w)
      invariant forall j :: 0 <= j < k ==> Link(C(cont), P(cont.pids[j])) in seen'
    {
      ghost var links := LinksOf(w);
      CheckingReset(w, start, before, listed, seen', fix', fil');
      fix', fil' := LinkContPid(cont, cont.pids[k], fix', fil', w, links, before, listed, seen');
      seen' := seen' + {Link(C(cont), P(cont.pids[k]))};
      CheckingOnward(w, start, links, before, listed, seen', fix', fil');
    }
    CoveredCont(w, cont, seen');
  }

  lemma CheckingReset(w: World, start: set<Link>, before: set<Link>, listed: set<Item>, seen: set<Link>, fix: nat,
                      fil: nat)
    requires Checking(w, start, before, listed, seen, fix, fil)
    ensures Checking(w, LinksOf(w), before, listed, seen, fix, fil) && Completes(start, LinksOf(w))
  {
  }

  lemma CheckingOnward(w: World, start: set<Link>, links: set<Link>, before: set<Link>, listed: set<Item>,
                       seen: set<Link>, fix: nat, fil: nat)
    requires Completes(start, links) && Checking(w, links, before, listed, seen, fix, fil)
    ensures Checking(w, start, before, listed, seen, fix, fil) && links <= LinksOf(w)
  {
    hide LinksOf;
    CompletesTrans(start, links, LinksOf(w));
  }

  /** A PID entry: the lists of its image and its container. */
  method CheckPid(pid: Pid, fix: nat, fil: nat, ghost w: World, ghost start: set<Link>,
                  ghost before: set<Link>, ghost listed: set<Item>, ghost seen: set<Link>)
    returns (fix': nat)
    requires pid in w.pids && P(pid) in listed && Checking(w, start, before, listed, seen, fix, fil)
    modifies w.imgs`pids, w.conts`pids
    ensures Checking(w, start, before, listed, seen, fix', fil)
    ensures Covered(LinksOf(w), {P(pid)}, seen)
  {
    hide LinksOf, Checking, Covered;
    fix' := ListImgPid(pid, fix, fil, w, start, before, listed, seen);
    ghost var links := LinksOf(w);
    CheckingReset(w, start, before, listed, seen, fix', fil);
    fix' := ListContPid(pid, fix', fil, w, links, before, listed, seen);
    CheckingOnward(w, start, links, before, listed, seen, fix', fil);
    CoveredPid(w, pid, seen);
  }

  /** One more item is covered. */
  lemma CoversMore(w: World, links: set<Link>, before: set<Link>, listed: set<Item>, covered: set<Item>, x: Item,
                   seen: set<Link>, seen': set<Link>, fix: nat, fil: nat)
    requires Checking(w, links, before, listed, seen', fix, fil) && seen <= seen'
    requires Covered(links, covered, seen) && Covered(LinksOf(w), {x}, seen')
    ensures Covered(LinksOf(w), covered + {x}, seen')
    ensures Checking(w, LinksOf(w), before, listed, seen', fix, fil)
  {
    hide LinksOf, Repairing;
    CoveredStays(links, LinksOf(w), covered, seen, seen');
  }

  ghost function Images(imgs: seq<Image>): set<Item> { set i | i in imgs :: I(i) }
  ghost function Conts(conts: seq<Cont>): set<Item> { set c | c in conts :: C(c) }
  ghost function Pids(pids: seq<Pid>): set<Item> { set p | p in pids :: P(p) }

  method CheckImages(imgs: seq<Image>, ghost w: World, ghost listed: set<Item>)
    returns (fix: nat, fil: nat, ghost seen: set<Link>)
    requires Closed(LinksOf(w), w) && Images(imgs) <= listed && forall i :: 0 <= i < |imgs| ==> imgs[i] in w.imgs
    modifies w.conts`img, w.pids`img
    ensures Checking(w, LinksOf(w), old(LinksOf(w)), listed, seen, fix, fil) && Covered(LinksOf(w), Images(imgs), seen)
  {
    hide LinksOf, Checking, Covered, Repairing, Closed;
    fix, fil, seen := 0, 0, {};
    ghost var before := LinksOf(w);
    CheckingStart(w, listed);
    for k := 0 to |imgs|
      invariant Checking(w, LinksOf(w), before, listed, seen, fix, fil) && Covered(LinksOf(w), Images(imgs[..k]), seen)
    {
      assert I(imgs[k]) in Images(imgs);
      ghost var links, was := LinksOf(w), seen;
      fix, fil, seen := CheckImage(imgs[k], fix, fil, w, links, before, listed, seen);
      CoversMore(w, links, before, listed, Images(imgs[..k]), I(imgs[k]), was, seen, fix, fil);
      assert Images(imgs[..k+1]) == Images(imgs[..k]) + {I(imgs[k])};
    }
    assert imgs[..|imgs|] == imgs;
  }

  lemma CheckingStart(w: World, listed: set<Item>)
    requires Closed(LinksOf(w), w)
    ensures Checking(w, LinksOf(w), LinksOf(w), listed, {}, 0, 0) && Covered(LinksOf(w), Images([]), {})
  {
    RepairStart(LinksOf(w), listed);
  }

  method CheckConts(conts: seq<Cont>, fix: nat, fil: nat, ghost w: World, ghost before: set<Link>,
                    ghost listed: set<Item>, ghost covered: set<Item>, ghost seen: set<Link>)
    returns (fix': nat, fil': nat, ghost seen': set<Link>)
    requires Checking(w, LinksOf(w), before, listed, seen, fix, fil) && Covered(LinksOf(w), covered, seen)
    requires Conts(conts) <= listed && forall i :: 0 <= i < |conts| ==> conts[i] in w.conts
    modifies w.imgs`conts, w.pids`cont
    ensures Checking(w, LinksOf(w), before, listed, seen', fix', fil') &&
      Covered(LinksOf(w), covered + Conts(conts), seen')
  {
    hide LinksOf, Checking, Covered;
    fix', fil', seen' := fix, fil, seen;
    assert covered + Conts([]) == covered;
    for k := 0 to |conts|
      invariant Checking(w, LinksOf(w), before, listed, seen', fix', fil')
      invariant Covered(LinksOf(w), covered + Conts(conts[..k]), seen')
    {
      assert C(conts[k]) in Conts(conts);
      ghost var links, was := LinksOf(w), seen';
      fix', fil', seen' := CheckCont(conts[k], fix', fil', w, links, before, listed, seen');
      CoversMore(w, links, before, listed, covered + Conts(conts[..k]), C(conts[k]), was, seen', fix', fil');
      assert covered + Conts(conts[..k+1]) == covered + Conts(conts[..k]) + {C(conts[k])};
    }
    assert conts[..|conts|] == conts;
  }

  method CheckPids(pids: seq<Pid>, fix: nat, fil: nat, ghost w: World, ghost before: set<Link>, ghost listed: set<Item>,
                   ghost covered: set<Item>, ghost seen: set<Link>)
    returns (fix': nat)
    requires Checking(w, LinksOf(w), before, listed, seen, fix, fil) && Covered(LinksOf(w), covered, seen)
    requires Pids(pids) <= listed && forall i :: 0 <= i < |pids| ==> pids[i] in w.pids
    modifies w.imgs`pids, w.conts`pids
    ensures Checking(w, LinksOf(w), before, listed, seen, fix', fil) && Covered(LinksOf(w), covered + Pids(pids), seen)
  {
    hide LinksOf, Checking, Covered;
    fix' := fix;
    assert covered + Pids([]) == covered;
    for k := 0 to |pids|
      invariant Checking(w, LinksOf(w), before, listed, seen, fix', fil)
      invariant Covered(LinksOf(w), covered + Pids(pids[..k]), seen)
    {
      assert P(pids[k]) in Pids(pids);
      ghost var links := LinksOf(w);
      fix' := CheckPid(pids[k], fix', fil, w, links, before, listed, seen);
      CoversMore(w, links, before, listed, covered + Pids(pids[..k]), P(pids[k]), seen, seen, fix', fil);
      assert covered + Pids(pids[..k+1]) == covered + Pids(pids[..k]) + {P(pids[k])};
    }
    assert pids[..|pids|] == pids;
  }

  ghost function Listed(imgs: seq<Image>, conts: seq<Cont>, pids: seq<Pid>): set<Item> {
    Images(imgs) + Conts(conts) + Pids(pids)
  }

  lemma CheckDone(w: World, before: set<Link>, listed: set<Item>, seen: set<Link>, fix: nat, fil: nat)
    requires Checking(w, LinksOf(w), before, listed, seen, fix, fil) && Covered(LinksOf(w), listed, seen)
    ensures Repaired(before, LinksOf(w), listed) && |LinksOf(w)| == |before| + fix && Closed(LinksOf(w), w)
    ensures fil == 0 <==> Agreed(LinksOf(w), listed)
    ensures fil == 0 <==> !Conflicted(before, listed)
    ensures Agreed(before, listed) ==> LinksOf(w) == before && fix == 0 && fil == 0
  {
    LinksHaveOneOwner(w);
    hide LinksOf, OneOwner, Repaired, Conflicted;
    RepairDone(before, LinksOf(w), listed, seen, fix, fil);
  }

  /** Completes the links of the listed items. The result is -1 exactly when they conflicted; else all
      their links agree, and it is the number of links added: 0 if they agreed before. */
  method CheckContParam(imgs: seq<Image>, conts: seq<Cont>, pids: seq<Pid>, ghost w: World) returns (rv: int)
    requires Closed(LinksOf(w), w)
    requires (forall i :: 0 <= i < |imgs| ==> imgs[i] in w.imgs) &&
      (forall i :: 0 <= i < |conts| ==> conts[i] in w.conts)
    requires forall i :: 0 <= i < |pids| ==> pids[i] in w.pids
    modifies w.imgs, w.conts, w.pids
    ensures Closed(LinksOf(w), w) && Repaired(old(LinksOf(w)), LinksOf(w), Listed(imgs, conts, pids))
    ensures rv == -1 <==> Conflicted(old(LinksOf(w)), Listed(imgs, conts, pids))
    ensures rv == -1 <==> !Agreed(LinksOf(w), Listed(imgs, conts, pids))
    ensures rv != -1 ==> rv == |LinksOf(w)| - |old(LinksOf(w))|
    ensures Agreed(old(LinksOf(w)), Listed(imgs, conts, pids)) ==> rv == 0 && LinksOf(w) == old(LinksOf(w))
  {
    hide LinksOf, Checking, Covered, Repaired, Agreed, Conflicted, Closed, Images, Conts, Pids;
    ghost var before, listed := LinksOf(w), Listed(imgs, conts, pids);
    var fix, fil;
    ghost var seen;
    fix, fil, seen := CheckImages(imgs, w, listed);
    fix, fil, seen := CheckConts(conts, fix, fil, w, before, listed, Images(imgs), seen);
    fix := CheckPids(pids, fix, fil, w, before, listed, Images(imgs) + Conts(conts), seen);
    CheckDone(w, before, listed, seen, fix, fil);
    rv := if fil > 0 then -1 else fix;
  }
}
