/** The mask printers of `src/lib/kernutil.c`: the CPU list and the hexadecimal form, against readers
    of the two formats. */
module CpuList {
  import opened Options
  import Resources

  // ---------------------------------------------------------------------------------------
  // Numbers in text
  // ---------------------------------------------------------------------------------------

  function Digit(d: nat): char
    requires d < 16
  {
    if d < 10 then ('0' as int + d) as char else ('a' as int + d - 10) as char
  }

  predicate IsDigit(c: char) { '0' <= c <= '9' }

  function DigitValue(c: char): nat {
    if IsDigit(c) then c as int - '0' as int else if 'a' <= c <= 'f' then c as int - 'a' as int + 10 else 0
  }

  /** A number without leading zeros. */
  function Print(n: nat, radix: nat): string
    requires 2 <= radix <= 16
  {
    if n < radix then [Digit(n)] else Print(n / radix, radix) + [Digit(n % radix)]
  }

  /** The value of a digit string. */
  function Read(s: string, radix: nat): nat {
    if s == "" then 0 else Read(s[..|s|-1], radix) * radix + DigitValue(s[|s|-1])
  }

  /** Text of digits only. */
  predicate Plain(s: string) { forall i :: 0 <= i < |s| ==> IsDigit(s[i]) }

  lemma Divided(n: nat, radix: nat)
    requires radix > 0
    ensures n / radix * radix + n % radix == n
  {
  }

  lemma Smaller(n: nat, radix: nat)
    requires 2 <= radix <= n
    ensures n / radix < n
  {
    Divided(n, radix);
    assert n / radix * radix >= n / radix * 2;
  }

  lemma ReadOneMore(s: string, c: char, radix: nat)
    ensures Read(s + [c], radix) == Read(s, radix) * radix + DigitValue(c)
  {
    assert (s + [c])[..|s|] == s;
  }

  lemma {:induction false} ReadPrint(n: nat, radix: nat)
    requires 2 <= radix <= 16
    ensures Read(Print(n, radix), radix) == n
    decreases n
  {
    if n < radix {
      assert Print(n, radix)[..0] == "" && 0 * radix == 0;
    } else {
      Smaller(n, radix);
      ReadPrint(n / radix, radix);
      ReadOneMore(Print(n / radix, radix), Digit(n % radix), radix);
      Divided(n, radix);
    }
  }

  lemma {:induction false} PrintDigits(n: nat)
    ensures Plain(Print(n, 10)) && Print(n, 10) != "" && (n < 100 ==> |Print(n, 10)| <= 2)
  {
    if n >= 10 {
      PrintDigits(n / 10);
    }
  }

  // ---------------------------------------------------------------------------------------
  // The list format
  // ---------------------------------------------------------------------------------------

  function IndexOf(s: string, c: char): (k: nat)
    ensures k <= |s| && (k < |s| ==> s[k] == c) && forall i :: 0 <= i < k ==> s[i] != c
  {
    if s == "" || s[0] == c then 0 else 1 + IndexOf(s[1..], c)
  }

  function ReadNumber(s: string): Option<nat> {
    if s != "" && Plain(s) then Some(Read(s, 10)) else None
  }

  /** The CPUs of a range. */
  function Range(lo: nat, hi: nat): (r: set<nat>)
    ensures forall i :: i in r <==> lo <= i <= hi
    decreases hi + 1
  {
    if lo > hi then {} else if hi == 0 then {0} else Range(lo, hi - 1) + {hi}
  }

  /** A CPU number or a range of them. */
  function ReadItem(s: string): Option<set<nat>> {
    var k := IndexOf(s, '-');
    if k == |s| then
      match ReadNumber(s)
      case Some(n) => Some({n})
      case None => None
    else
      match (ReadNumber(s[..k]), ReadNumber(s[k+1..]))
      case (Some(a), Some(b)) => if a <= b then Some(Range(a, b)) else None
      case _ => None
  }

  function ReadItems(s: string): Option<set<nat>>
    decreases |s|
  {
    var k := IndexOf(s, ',');
    if k == |s| then ReadItem(s)
    else
      match (ReadItem(s[..k]), ReadItems(s[k+1..]))
      case (Some(x), Some(y)) => Some(x + y)
      case _ => None
  }

  /** The set of CPUs a list in the List format of cpuset(7) stands for. */
  function ReadList(s: string): Option<set<nat>> {
    if s == "" then Some({}) else ReadItems(s)
  }

  // ---------------------------------------------------------------------------------------
  // Runs of set bits
  // ---------------------------------------------------------------------------------------

  datatype Run = Run(lo: nat, hi: nat)

  function RunText(r: Run): string {
    if r.lo == r.hi then Print(r.lo, 10) else Print(r.lo, 10) + "-" + Print(r.hi, 10)
  }

  /** The runs, separated by commas. */
  function Render(runs: seq<Run>): string {
    if runs == [] then ""
    else if |runs| == 1 then RunText(runs[0])
    else Render(runs[..|runs|-1]) + "," + RunText(runs[|runs|-1])
  }

  function Span(r: Run): set<nat> { Range(r.lo, r.hi) }

  function Spans(runs: seq<Run>): set<nat> {
    if runs == [] then {} else Spans(runs[..|runs|-1]) + Span(runs[|runs|-1])
  }

  lemma NumberReads(n: nat)
    ensures ReadNumber(Print(n, 10)) == Some(n) && Plain(Print(n, 10))
  {
    ReadPrint(n, 10);
    PrintDigits(n);
  }

  lemma FirstAt(s: string, c: char, k: nat)
    requires k < |s| && s[k] == c && forall i :: 0 <= i < k ==> s[i] != c
    ensures IndexOf(s, c) == k
  {
  }

  lemma Absent(s: string, c: char)
    requires forall i :: 0 <= i < |s| ==> s[i] != c
    ensures IndexOf(s, c) == |s|
  {
  }

  /** A run's text reads back as the run, and has no comma. */
  lemma RunReads(r: Run)
    requires r.lo <= r.hi
    ensures ReadItem(RunText(r)) == Some(Span(r)) && RunText(r) != ""
    ensures forall i :: 0 <= i < |RunText(r)| ==> RunText(r)[i] != ','
  {
    var a, b := Print(r.lo, 10), Print(r.hi, 10);
    NumberReads(r.lo);
    NumberReads(r.hi);
    if r.lo == r.hi {
      Absent(a, '-');
      assert Span(r) == {r.lo};
    } else {
      var t := a + "-" + b;
      FirstAt(t, '-', |a|);
      assert t[..|a|] == a && t[|a|+1..] == b;
    }
  }

  /** Appending an item to a list. */
  lemma {:induction false} ItemsAppend(s: string, t: string, x: set<nat>, y: set<nat>)
    requires s != "" && ReadItems(s) == Some(x)
    requires ReadItem(t) == Some(y) && forall i :: 0 <= i < |t| ==> t[i] != ','
    ensures ReadItems(s + "," + t) == Some(x + y)
    decreases |s|
  {
    hide ReadItem, ReadNumber;
    var k := IndexOf(s, ',');
    var u := s + "," + t;
    FirstAt(u, ',', k);
    if k == |s| {
      assert u[..k] == s && u[k+1..] == t;
      Absent(t, ',');
    } else {
      var rest := s[k+1..];
      assert u[..k] == s[..k] && u[k+1..] == rest + "," + t;
      var z := ReadItems(rest).value;
      if rest == "" {
        EmptyReadsNothing();
      }
      ItemsAppend(rest, t, z, y);
      assert ReadItem(s[..k]).value + (z + y) == x + y;
    }
  }

  lemma EmptyReadsNothing()
    ensures ReadItems("") == None
  {
    assert IndexOf("", ',') == 0 && IndexOf("", '-') == 0;
  }

  /** Reading back rendered runs yields exactly their CPUs. */
  lemma {:induction false} ReadRendered(runs: seq<Run>)
    requires forall i :: 0 <= i < |runs| ==> runs[i].lo <= runs[i].hi
    ensures ReadList(Render(runs)) == Some(Spans(runs)) && (runs != [] ==> Render(runs) != "")
  {
    if |runs| == 1 {
      RunReads(runs[0]);
      Absent(RunText(runs[0]), ',');
      assert Spans(runs) == Spans(runs[..0]) + Span(runs[0]) == Span(runs[0]);
    } else if runs != [] {
      var n := |runs| - 1;
      ReadRendered(runs[..n]);
      RunReads(runs[n]);
      ItemsAppend(Render(runs[..n]), RunText(runs[n]), Spans(runs[..n]), Span(runs[n]));
    }
  }

  // ---------------------------------------------------------------------------------------
  // What the printer writes
  // ---------------------------------------------------------------------------------------

  function SetBits(mask: Resources.Bitmask): (r: set<nat>)
    ensures forall i: nat :: i in r <==> i < |mask| && mask[i]
  {
    if mask == [] then {} else SetBits(mask[..|mask|-1]) + if mask[|mask|-1] then {|mask|-1} else {}
  }

  /** A run of set bits that cannot be extended to either side. */
  predicate Maximal(r: Run, mask: Resources.Bitmask) {
    && r.lo <= r.hi < |mask| && (forall i :: r.lo <= i <= r.hi ==> mask[i])
    && (r.lo == 0 || !mask[r.lo-1]) && (r.hi + 1 == |mask| || !mask[r.hi+1])
  }

  predicate InSome(runs: seq<Run>, b: int) {
    exists i :: 0 <= i < |runs| && runs[i].lo <= b <= runs[i].hi
  }

  /** The maximal runs of a mask, in ascending order. */
  predicate RunsOf(runs: seq<Run>, mask: Resources.Bitmask) {
    && (forall i :: 0 <= i < |runs| ==> Maximal(runs[i], mask))
    && (forall i, j :: 0 <= i < j < |runs| ==> runs[i].hi + 1 < runs[j].lo)
    && (forall b :: 0 <= b < |mask| && mask[b] ==> InSome(runs, b))
  }

  /** The last run, when it reaches the end of the mask, is written without its end. */
  function Written(runs: seq<Run>, n: nat): seq<Run> {
    if runs != [] && runs[|runs|-1].hi + 1 == n
      then runs[..|runs|-1] + [Run(runs[|runs|-1].lo, runs[|runs|-1].lo)] else runs
  }

  /** The bits are the union of the runs. */
  lemma {:induction false} SpansHold(runs: seq<Run>, b: nat)
    ensures b in Spans(runs) <==> InSome(runs, b)
  {
    if runs != [] {
      SpansHold(runs[..|runs|-1], b);
    }
  }

  lemma RunsCover(runs: seq<Run>, mask: Resources.Bitmask)
    requires RunsOf(runs, mask)
    ensures Spans(runs) == SetBits(mask)
  {
    forall b: nat ensures b in Spans(runs) <==> b in SetBits(mask) {
      SpansHold(runs, b);
      if i :| 0 <= i < |runs| && runs[i].lo <= b <= runs[i].hi {
        assert Maximal(runs[i], mask);
      }
    }
  }

  /** A bit of the run at the upper end of the mask, but not its first one: all bits from the one below
      it on are set. */
  predicate BehindTopRun(mask: Resources.Bitmask, b: int) {
    0 < b < |mask| && forall i :: b - 1 <= i < |mask| ==> mask[i]
  }

  /** The set bits without those. */
  ghost function Denoted(mask: Resources.Bitmask): set<nat> {
    set b | b in SetBits(mask) && !BehindTopRun(mask, b)
  }

  lemma WrittenOrdered(runs: seq<Run>, mask: Resources.Bitmask)
    requires RunsOf(runs, mask)
    ensures forall i :: 0 <= i < |Written(runs, |mask|)| ==> Written(runs, |mask|)[i].lo <= Written(runs, |mask|)[i].hi
  {
    forall i | 0 <= i < |runs| ensures runs[i].lo <= runs[i].hi {
      assert Maximal(runs[i], mask);
    }
  }

  /** Only the last run can reach the upper end. */
  lemma TopIsLast(runs: seq<Run>, mask: Resources.Bitmask)
    requires RunsOf(runs, mask)
    ensures mask != [] && mask[|mask|-1] ==> runs != [] && runs[|runs|-1].hi == |mask| - 1
    ensures forall k :: 0 <= k < |runs| ==>
      runs[k].lo <= runs[k].hi < |mask| && (k < |runs| - 1 ==> runs[k].hi + 1 < runs[|runs|-1].lo)
  {
    forall k | 0 <= k < |runs| ensures runs[k].lo <= runs[k].hi < |mask| {
      assert Maximal(runs[k], mask);
    }
    if mask != [] && mask[|mask|-1] {
      assert InSome(runs, |mask| - 1);
    }
  }

  /** Which bits lie behind the top run's first one. */
  lemma BehindTopIff(runs: seq<Run>, mask: Resources.Bitmask, b: nat)
    requires RunsOf(runs, mask)
    ensures BehindTopRun(mask, b)
      <==> runs != [] && runs[|runs|-1].hi + 1 == |mask| && runs[|runs|-1].lo < b <= runs[|runs|-1].hi
  {
    TopIsLast(runs, mask);
    if runs != [] {
      assert Maximal(runs[|runs|-1], mask);
    }
  }

  /** What is written stands for the set bits, except for the top run's bits behind its first one. */
  lemma WrittenSpans(runs: seq<Run>, mask: Resources.Bitmask, b: nat)
    requires RunsOf(runs, mask)
    ensures b in Spans(Written(runs, |mask|)) <==> b in SetBits(mask) && !BehindTopRun(mask, b)
  {
    hide RunsOf, BehindTopRun, SetBits, Spans;
    TopIsLast(runs, mask);
    BehindTopIff(runs, mask, b);
    RunsCover(runs, mask);
    SpansHold(runs, b);
    SpansHold(Written(runs, |mask|), b);
    WrittenCovers(runs, |mask|, b);
  }

  lemma WrittenCovers(runs: seq<Run>, n: nat, b: nat)
    requires forall k :: 0 <= k < |runs| ==>
      runs[k].lo <= runs[k].hi < n && (k < |runs| - 1 ==> runs[k].hi + 1 < runs[|runs|-1].lo)
    ensures InSome(Written(runs, n), b)
      <==> InSome(runs, b) && !(runs != [] && runs[|runs|-1].hi + 1 == n && runs[|runs|-1].lo < b <= runs[|runs|-1].hi)
  {
    var written := Written(runs, n);
    if i :| 0 <= i < |runs| && runs[i].lo <= b <= runs[i].hi {
      assert written[i].lo <= b ==> written[i].lo == runs[i].lo;
    }
  }

  // ---------------------------------------------------------------------------------------
  // The CPU list printer
  // ---------------------------------------------------------------------------------------

  /** The machine's `size_t`. */
  const SIZE: nat := 0x1_0000_0000_0000_0000

  /** What the source deducts for a run: two characters, one for the comma, three for the end. */
  function Cost(runs: seq<Run>): nat {
    if runs == [] then 0
    else
      var r := runs[|runs|-1];
      Cost(runs[..|runs|-1]) + 2 + (if |runs| > 1 then 1 else 0) + if r.lo < r.hi then 3 else 0
  }

  lemma RunTextShort(r: Run)
    requires r.lo <= r.hi < 100
    ensures |RunText(r)| <= 2 + if r.lo < r.hi then 3 else 0
  {
    PrintDigits(r.lo);
    PrintDigits(r.hi);
  }

  /** With CPU numbers below 100 the deductions cover the text. */
  lemma {:induction false} CostCovers(runs: seq<Run>)
    requires forall i :: 0 <= i < |runs| ==> runs[i].lo <= runs[i].hi < 100
    ensures |Render(runs)| <= Cost(runs)
  {
    hide RunText;
    if runs != [] {
      RunTextShort(runs[|runs|-1]);
      CostCovers(runs[..|runs|-1]);
    }
  }

  lemma MaximalStays(r: Run, mask: Resources.Bitmask, b: bool)
    requires Maximal(r, mask) && (r.hi + 1 < |mask| || !b)
    ensures Maximal(r, mask + [b])
  {
  }

  lemma ClearBitKeepsRuns(runs: seq<Run>, mask: Resources.Bitmask)
    requires RunsOf(runs, mask)
    ensures RunsOf(runs, mask + [false])
  {
    forall i | 0 <= i < |runs| ensures Maximal(runs[i], mask + [false]) {
      MaximalStays(runs[i], mask, false);
    }
    forall b | 0 <= b < |mask + [false]| && (mask + [false])[b] ensures InSome(runs, b) {
      assert mask[b];
    }
  }

  lemma SetBitOpensRun(runs: seq<Run>, mask: Resources.Bitmask)
    requires RunsOf(runs, mask) && (mask == [] || !mask[|mask|-1])
    ensures RunsOf(runs + [Run(|mask|, |mask|)], mask + [true])
  {
    var n := |mask|;
    var runs', mask' := runs + [Run(n, n)], mask + [true];
    forall i | 0 <= i < |runs'| ensures Maximal(runs'[i], mask') {
      if i < |runs| {
        assert Maximal(runs[i], mask) && mask[runs[i].hi];
        MaximalStays(runs[i], mask, true);
      }
    }
    forall b | 0 <= b < n + 1 && mask'[b] ensures InSome(runs', b) {
      if b < n {
        assert mask[b];
        var i :| 0 <= i < |runs| && runs[i].lo <= b <= runs[i].hi;
        assert runs'[i] == runs[i];
      } else {
        assert runs'[|runs|] == Run(n, n);
      }
    }
  }

  lemma SetBitExtendsRun(front: seq<Run>, lo: nat, mask: Resources.Bitmask)
    requires mask != [] && RunsOf(front + [Run(lo, |mask| - 1)], mask)
    ensures RunsOf(front + [Run(lo, |mask|)], mask + [true])
  {
    hide Maximal;
    var n := |mask|;
    var runs, runs', mask' := front + [Run(lo, n - 1)], front + [Run(lo, n)], mask + [true];
    assert runs[|front|] == Run(lo, n - 1) && runs'[|front|] == Run(lo, n);
    MaximalGrows(lo, mask);
    forall i | 0 <= i < |front| ensures Maximal(runs'[i], mask') {
      assert runs[i] == front[i] == runs'[i] && runs[i].hi + 1 < runs[|front|].lo;
      MaximalStays(runs[i], mask, true);
    }
    forall i, j | 0 <= i < j < |runs'| ensures runs'[i].hi + 1 < runs'[j].lo {
      assert runs[i].hi + 1 < runs[j].lo;
    }
    forall b | 0 <= b < n + 1 && mask'[b] ensures InSome(runs', b) {
      if b < n {
        assert mask[b];
        var i :| 0 <= i < |runs| && runs[i].lo <= b <= runs[i].hi;
        assert runs'[i].lo <= b <= runs'[i].hi;
      }
    }
  }

  lemma MaximalGrows(lo: nat, mask: Resources.Bitmask)
    requires mask != [] && Maximal(Run(lo, |mask| - 1), mask)
    ensures lo <= |mask| - 1 && Maximal(Run(lo, |mask|), mask + [true])
  {
  }

  lemma NoRuns()
    ensures RunsOf([], [])
  {
  }

  lemma RunsEndWithin(runs: seq<Run>, mask: Resources.Bitmask)
    requires RunsOf(runs, mask)
    ensures runs != [] ==> runs[|runs|-1].hi < |mask|
  {
    if runs != [] {
      assert Maximal(runs[|runs|-1], mask);
    }
  }

  /** Whether the last run reaches the end of an `n`-bit mask. */
  predicate Open(runs: seq<Run>, n: nat) { runs != [] && runs[|runs|-1].hi + 1 == n }

  /** The runs of a mask, bit by bit. */
  function MaskRuns(mask: Resources.Bitmask): seq<Run> {
    if mask == [] then []
    else
      var n := |mask| - 1;
      var runs := MaskRuns(mask[..n]);
      if !mask[n] then runs
      else if Open(runs, n) then runs[..|runs|-1] + [Run(runs[|runs|-1].lo, n)]
      else runs + [Run(n, n)]
  }

  lemma {:induction false} MaskRunsAreMaximal(mask: Resources.Bitmask)
    ensures RunsOf(MaskRuns(mask), mask)
    ensures Open(MaskRuns(mask), |mask|) <==> mask != [] && mask[|mask|-1]
  {
    hide RunsOf, Maximal;
    if mask != [] {
      var n := |mask| - 1;
      var runs := MaskRuns(mask[..n]);
      MaskRunsAreMaximal(mask[..n]);
      assert mask == mask[..n] + [mask[n]];
      if !mask[n] {
        ClearBitKeepsRuns(runs, mask[..n]);
        RunsEndWithin(runs, mask[..n]);
      } else if Open(runs, n) {
        var front, r := runs[..|runs|-1], runs[|runs|-1];
        assert runs == front + [Run(r.lo, n - 1)];
        SetBitExtendsRun(front, r.lo, mask[..n]);
        assert (front + [Run(r.lo, n)])[|front|] == Run(r.lo, n);
      } else {
        SetBitOpensRun(runs, mask[..n]);
        assert (runs + [Run(n, n)])[|runs|] == Run(n, n);
      }
    } else {
      NoRuns();
    }
  }

  /** The runs as they are written. */
  function Printed(mask: Resources.Bitmask): seq<Run> { Written(MaskRuns(mask), |mask|) }

  /** What the list stands for, for every mask: the set bits, except that of a run at the upper end only
      the first bit remains. */
  lemma ListDenotes(mask: Resources.Bitmask)
    ensures ReadList(Render(Printed(mask))) == Some(Denoted(mask))
  {
    hide ReadList, Spans, Render, BehindTopRun;
    var runs := MaskRuns(mask);
    MaskRunsAreMaximal(mask);
    WrittenOrdered(runs, mask);
    ReadRendered(Printed(mask));
    forall b: nat ensures b in Spans(Printed(mask)) <==> b in Denoted(mask) {
      WrittenSpans(runs, mask, b);
    }
    assert Spans(Printed(mask)) == Denoted(mask);
  }

  lemma BehindTwo(mask: Resources.Bitmask, b: int)
    ensures BehindTopRun(mask, b) ==> |mask| >= 2 && mask[|mask|-1] && mask[|mask|-2]
    ensures b == |mask| - 1 && |mask| >= 2 && mask[|mask|-1] && mask[|mask|-2] ==> BehindTopRun(mask, b)
  {
  }

  /** Those are all set bits exactly when the two highest ones are not both set. */
  lemma ListReadsBackIff(mask: Resources.Bitmask)
    ensures ReadList(Render(Printed(mask))) == Some(SetBits(mask))
      <==> !(|mask| >= 2 && mask[|mask|-1] && mask[|mask|-2])
  {
    hide ReadList, Render, Printed, BehindTopRun;
    ListDenotes(mask);
    BehindTwo(mask, |mask| - 1);
    var n := |mask|;
    if n >= 2 && mask[n-1] && mask[n-2] {
      assert n - 1 in SetBits(mask) && BehindTopRun(mask, n - 1);
    } else {
      forall b: nat ensures !BehindTopRun(mask, b) {
        BehindTwo(mask, b);
      }
      assert Denoted(mask) == SetBits(mask);
    }
  }

  /** A mask without a clear bit is one run. */
  lemma {:induction false} OnesAreOneRun(mask: Resources.Bitmask)
    requires mask != [] && forall i :: 0 <= i < |mask| ==> mask[i]
    ensures MaskRuns(mask) == [Run(0, |mask| - 1)]
  {
    var n := |mask| - 1;
    if n == 0 {
      assert MaskRuns(mask[..0]) == [];
    } else {
      OnesAreOneRun(mask[..n]);
    }
  }

  /** It is printed as CPU 0 alone, whatever its size. */
  lemma OnesPrintZero(mask: Resources.Bitmask)
    requires mask != [] && forall i :: 0 <= i < |mask| ==> mask[i]
    ensures Render(Printed(mask)) == "0"
  {
    hide MaskRuns;
    OnesAreOneRun(mask);
    assert Printed(mask) == [Run(0, 0)];
    assert Print(0, 10) == "0";
  }

  /** What the next bit adds to the text. */
  lemma PrintedStep(mask: Resources.Bitmask, n: nat)
    requires n < |mask|
    ensures var runs, text, text' := MaskRuns(mask[..n]), Printed(mask[..n]), Printed(mask[..n+1]);
      && (Open(runs, n) <==> n > 0 && mask[n-1])
      && (mask[n] && !Open(runs, n) ==> text == runs && text' == text + [Run(n, n)])
      && (mask[n] && Open(runs, n) ==>
           text' == text && MaskRuns(mask[..n+1]) == runs[..|runs|-1] + [Run(runs[|runs|-1].lo, n)])
      && (!mask[n] && !Open(runs, n) ==> text' == text)
      && (!mask[n] && Open(runs, n) ==>
            text' == runs == runs[..|runs|-1] + [runs[|runs|-1]]
            && text == runs[..|runs|-1] + [Run(runs[|runs|-1].lo, runs[|runs|-1].lo)])
  {
    MaskRunsAreMaximal(mask[..n]);
    assert mask[..n+1][..n] == mask[..n];
    hide RunsOf;
  }

  lemma RenderMore(runs: seq<Run>, n: nat)
    ensures Render(runs + [Run(n, n)]) == Render(runs) + (if runs == [] then "" else ",") + Print(n, 10)
    ensures Cost(runs + [Run(n, n)]) == Cost(runs) + 2 + if runs == [] then 0 else 1
  {
    assert (runs + [Run(n, n)])[..|runs|] == runs;
  }

  lemma RenderEnd(front: seq<Run>, lo: nat, hi: nat)
    requires lo < hi
    ensures Render(front + [Run(lo, hi)]) == Render(front + [Run(lo, lo)]) + "-" + Print(hi, 10)
    ensures Cost(front + [Run(lo, hi)]) == Cost(front + [Run(lo, lo)]) + 3
  {
    hide Print;
    RenderLast(front, Run(lo, hi));
    RenderLast(front, Run(lo, lo));
    var sep := if front == [] then "" else ",";
    assert Render(front) + sep + (Print(lo, 10) + "-" + Print(hi, 10))
      == (Render(front) + sep + Print(lo, 10)) + "-" + Print(hi, 10);
  }

  lemma RenderLast(front: seq<Run>, r: Run)
    ensures Render(front + [r]) == Render(front) + (if front == [] then "" else ",") + RunText(r)
    ensures Cost(front + [r]) == Cost(front) + 2 + (if front == [] then 0 else 1) + if r.lo < r.hi then 3 else 0
  {
    assert (front + [r])[..|front|] == front;
    hide RunText;
  }

  lemma RenderEmptyIff(runs: seq<Run>)
    requires forall i :: 0 <= i < |runs| ==> runs[i].lo <= runs[i].hi
    ensures Render(runs) == "" <==> runs == []
  {
    ReadRendered(runs);
  }

  /** The deductions only grow with the bits. */
  lemma {:induction false} CostGrows(mask: Resources.Bitmask, n: nat)
    requires n <= |mask|
    ensures Cost(Printed(mask[..n])) <= Cost(Printed(mask))
    decreases |mask| - n
  {
    if n == |mask| {
      assert mask[..n] == mask;
    } else {
      CostGrows(mask, n + 1);
      PrintedStep(mask, n);
      var runs := MaskRuns(mask[..n]);
      if mask[n] && !Open(runs, n) {
        RenderMore(runs, n);
      } else if !mask[n] && Open(runs, n) {
        var front, r := runs[..|runs|-1], runs[|runs|-1];
        MaskRunsAreMaximal(mask[..n]);
        assert Maximal(r, mask[..n]);
        if r.lo < r.hi {
          RenderEnd(front, r.lo, r.hi);
        }
      }
    }
  }

  /** `len` after the deductions for the first bits, as the machine computes it. */
  function Left(size: nat, text: seq<Run>): nat {
    (size - 1 - Cost(text)) % SIZE
  }

  lemma LeftAfter(size: nat, text: seq<Run>, text': seq<Run>, k: nat)
    requires Cost(text') == Cost(text) + k
    ensures (Left(size, text) - k) % SIZE == Left(size, text')
  {
    hide Cost;
  }

  /** The state of the loop before bit `i`. */
  ghost predicate Printing(mask: Resources.Bitmask, i: nat, str: string, first: int, last: int)
    requires i <= |mask|
  {
    var runs := MaskRuns(mask[..i]);
    && str == Render(Printed(mask[..i]))
    && (if Open(runs, i) then first == runs[|runs|-1].lo && last == i - 1 else first == -1 && last == -1)
  }

  /** A set bit opens a run, or extends the open one. */
  method PrintSetBit(mask: Resources.Bitmask, i: nat, str: string, first: int, last: int, len: nat, ghost size: nat)
    returns (str': string, first': int, last': int, len': nat)
    requires i < |mask| && mask[i] && Printing(mask, i, str, first, last) && len == Left(size, Printed(mask[..i]))
    ensures Printing(mask, i + 1, str', first', last') && len' == Left(size, Printed(mask[..i+1]))
  {
    hide MaskRuns, Printed, Render, Cost, Print, Left;
    str', first', last', len' := str, first, last, len;
    ghost var runs, text := MaskRuns(mask[..i]), Printed(mask[..i]);
    PrintedStep(mask, i);
    OpensOrExtends(mask, i);
    if 0 > first {
      RenderMore(runs, i);
      PrintedEmptyIff(mask[..i]);
      LeftAfter(size, text, Printed(mask[..i+1]), if runs == [] then 2 else 3);
      first' := i;
      len' := (len' - 2) % SIZE;
      if |str| == 0 {
        str' := Print(i, 10);
      } else {
        str' := str + ("," + Print(i, 10));
        len' := (len' - 1) % SIZE;
      }
      last' := first';
    } else {
      last' := last' + 1;
    }
  }

  /** Which run a set bit leaves open. */
  lemma OpensOrExtends(mask: Resources.Bitmask, i: nat)
    requires i < |mask|
    ensures var runs, runs' := MaskRuns(mask[..i]), MaskRuns(mask[..i+1]);
      && (mask[i] ==> Open(runs', i + 1) && runs'[|runs'|-1].lo == if Open(runs, i) then runs[|runs|-1].lo else i)
      && (!mask[i] ==> !Open(runs', i + 1))
  {
    MaskRunsAreMaximal(mask[..i]);
    RunsEndWithin(MaskRuns(mask[..i]), mask[..i]);
    assert mask[..i+1][..i] == mask[..i];
  }

  lemma PrintedEmptyIff(mask: Resources.Bitmask)
    ensures Render(Printed(mask)) == "" <==> MaskRuns(mask) == []
  {
    MaskRunsAreMaximal(mask);
    WrittenOrdered(MaskRuns(mask), mask);
    RenderEmptyIff(Printed(mask));
  }

  /** A clear bit ends the open run; a run of more than one bit gets its end written. */
  method PrintClearBit(mask: Resources.Bitmask, i: nat, str: string, first: int, last: int, len: nat, ghost size: nat)
    returns (str': string, first': int, last': int, len': nat)
    requires i < |mask| && !mask[i] && Printing(mask, i, str, first, last) && len == Left(size, Printed(mask[..i]))
    ensures Printing(mask, i + 1, str', first', last') && len' == Left(size, Printed(mask[..i+1]))
  {
    hide MaskRuns, Printed, Render, Cost, Print, Left;
    str', first', last', len' := str, -1, -1, len;
    ghost var runs, text := MaskRuns(mask[..i]), Printed(mask[..i]);
    PrintedStep(mask, i);
    OpensOrExtends(mask, i);
    OpenRunOrdered(mask[..i]);
    if last != first {
      RenderEnd(runs[..|runs|-1], first, last);
      LeftAfter(size, text, Printed(mask[..i+1]), 3);
      str' := str + ("-" + Print(last, 10));
      len' := (len' - 3) % SIZE;
    }
  }

  lemma OpenRunOrdered(mask: Resources.Bitmask)
    ensures Open(MaskRuns(mask), |mask|) ==> MaskRuns(mask)[|MaskRuns(mask)|-1].lo <= |mask| - 1
  {
    MaskRunsAreMaximal(mask);
    var runs := MaskRuns(mask);
    if Open(runs, |mask|) {
      assert Maximal(runs[|runs|-1], mask);
    }
  }

  /** `parse_bitmask`: fails only when no character is left before some bit, so never when there is
      room for all deductions. */
  method ParseBitmask(mask: Resources.Bitmask, size: nat) returns (rv: int, str: string)
    requires size < SIZE
    ensures rv == 0 ==> str == Render(Printed(mask))
    ensures rv == 0 || rv == -1
    ensures rv == 0 <==> size != 0 && forall i :: 0 <= i < |mask| ==> Left(size, Printed(mask[..i])) != 0
    ensures size > 1 + Cost(Printed(mask)) ==> rv == 0
  {
    hide MaskRuns, Printed, Render, Cost, Print, Left;
    rv, str := -1, "";
    if size == 0 {
      return;
    }
    var len := size - 1;
    var first, last := -1, -1;
    RoomLeft(mask, size);
    PrintingStart(mask, size);
    for i := 0 to |mask|
      invariant Printing(mask, i, str, first, last) && len == Left(size, Printed(mask[..i]))
      invariant forall j :: 0 <= j < i ==> Left(size, Printed(mask[..j])) != 0
    {
      if len == 0 {
        return;
      }
      if mask[i] {
        str, first, last, len := PrintSetBit(mask, i, str, first, last, len, size);
      } else {
        str, first, last, len := PrintClearBit(mask, i, str, first, last, len, size);
      }
    }
    assert mask[..|mask|] == mask;
    rv := 0;
  }

  lemma PrintingStart(mask: Resources.Bitmask, size: nat)
    requires 0 < size < SIZE
    ensures Printing(mask, 0, "", -1, -1) && Left(size, Printed(mask[..0])) == size - 1
  {
  }

  /** With room for all deductions something is always left. */
  lemma RoomLeft(mask: Resources.Bitmask, size: nat)
    requires size < SIZE
    ensures size > 1 + Cost(Printed(mask)) ==> forall i :: 0 <= i < |mask| ==> Left(size, Printed(mask[..i])) != 0
  {
    if size > 1 + Cost(Printed(mask)) {
      forall i | 0 <= i < |mask| ensures Left(size, Printed(mask[..i])) != 0 {
        CostGrows(mask, i);
      }
    }
  }

  /** With CPU numbers below 100 and that room, the text and its terminator fit the buffer. */
  lemma ListFits(mask: Resources.Bitmask, size: nat)
    requires |mask| <= 100 && size > 1 + Cost(Printed(mask))
    ensures |Render(Printed(mask))| + 1 <= size
  {
    MaskRunsAreMaximal(mask);
    forall i | 0 <= i < |MaskRuns(mask)| ensures MaskRuns(mask)[i].lo <= MaskRuns(mask)[i].hi < 100 {
      assert Maximal(MaskRuns(mask)[i], mask);
    }
    CostCovers(Printed(mask));
  }

  // ---------------------------------------------------------------------------------------
  // The hexadecimal printer
  // ---------------------------------------------------------------------------------------

  /** A number with `k` hexadecimal digits. */
  function Padded(n: nat, k: nat): (s: string)
    ensures |s| == k
  {
    if k == 0 then "" else Padded(n / 16, k - 1) + [Digit(n % 16)]
  }

  function Power16(k: nat): nat {
    if k == 0 then 1 else 16 * Power16(k - 1)
  }

  lemma SixteenDigits()
    ensures Power16(16) == SIZE
  {
    assert Power16(4) == 0x1_0000;
    assert Power16(8) == 0x1_0000 * Power16(4);
    assert Power16(12) == 0x1_0000 * Power16(8);
    assert Power16(16) == 0x1_0000 * Power16(12);
  }

  /** Appending `k` digits shifts what is there. */
  lemma {:induction false} ReadPadded(s: string, n: nat, k: nat)
    requires n < Power16(k)
    ensures Read(s + Padded(n, k), 16) == Read(s, 16) * Power16(k) + n
    decreases k
  {
    if k == 0 {
      assert s + Padded(n, 0) == s;
    } else {
      ReadPadded(s, n / 16, k - 1);
      var front := s + Padded(n / 16, k - 1);
      assert s + Padded(n, k) == front + [Digit(n % 16)];
      ReadOneMore(front, Digit(n % 16), 16);
      Shifted(Read(s, 16), Power16(k - 1), n);
    }
  }

  lemma Shifted(v: nat, p: nat, n: nat)
    ensures (v * p + n / 16) * 16 + n % 16 == v * (16 * p) + n
  {
    assert v * (16 * p) == (v * p) * 16;
  }

  /** A word of the machine. */
  type Word = n: nat | n < SIZE witness 0

  /** The number a mask of words stands for, lowest word first, from word `i` on. */
  function MaskValue(words: seq<Word>, i: nat): nat
    requires i <= |words|
    decreases |words| - i
  {
    if i == |words| then 0 else MaskValue(words, i + 1) * SIZE + words[i]
  }

  /** The words from the highest one that is not zero down to word `i`. */
  function Significant(words: seq<Word>, i: nat): (k: nat)
    requires i <= |words|
    ensures k <= |words| - i && (k == 0 <==> forall j :: i <= j < |words| ==> words[j] == 0)
    decreases |words| - i
  {
    if i == |words| then 0
    else if Significant(words, i + 1) > 0 || words[i] != 0 then Significant(words, i + 1) + 1 else 0
  }

  lemma {:induction false} ZeroValue(words: seq<Word>, i: nat)
    requires i <= |words|
    ensures Significant(words, i) == 0 <==> MaskValue(words, i) == 0
    decreases |words| - i
  {
    if i < |words| {
      ZeroValue(words, i + 1);
      assert 0 * SIZE == 0;
    }
  }

  lemma {:induction false} PrintShort(n: nat, k: nat)
    requires 0 < k && n < Power16(k)
    ensures |Print(n, 16)| <= k
  {
    if n >= 16 {
      assert k > 1;
      PrintShort(n / 16, k - 1);
    }
  }

  /** `parse_bitmask_hex`: succeeds exactly when there is room for sixteen digits a significant word,
      and for those of one word if there is any word at all. The text is the mask read as one number;
      it is empty for the empty mask. */
  method ParseBitmaskHex(words: seq<Word>, size: nat) returns (rv: int, str: string)
    ensures rv == 0 || rv == -1
    ensures rv == 0 <==>
      size > 0 && (words == [] || size - 1 >= 16 * (if Significant(words, 0) > 1 then Significant(words, 0) else 1))
    ensures rv == 0 ==> Read(str, 16) == MaskValue(words, 0) && |str| < size
  {
    rv, str := -1, "";
    if size == 0 {
      return;
    }
    var len := size - 1;
    var found := false;
    SixteenDigits();
    var i := |words|;
    while i > 0
      invariant 0 <= i <= |words| && found == (Significant(words, i) > 0)
      invariant 16 * Significant(words, i) <= size - 1 && len == size - 1 - 16 * Significant(words, i)
      invariant |str| <= 16 * Significant(words, i) && Read(str, 16) == MaskValue(words, i)
      invariant i < |words| ==> size - 1 >= 16
    {
      i := i - 1;
      if 16 > len {
        SignificantGrows(words, i);
        return;
      }
      ZeroValue(words, i + 1);
      if found || words[i] != 0 {
        if found {
          ReadPadded(str, words[i], 16);
          str := str + Padded(words[i], 16);
        } else {
          ReadPrint(words[i], 16);
          PrintShort(words[i], 16);
          assert "" + Print(words[i], 16) == Print(words[i], 16);
          str := Print(words[i], 16);
        }
        found := true;
        len := len - 16;
      }
    }
    rv := 0;
  }

  lemma {:induction false} SignificantGrows(words: seq<Word>, i: nat)
    requires i <= |words|
    ensures Significant(words, i) <= Significant(words, 0)
    decreases i
  {
    if i > 0 {
      SignificantGrows(words, i - 1);
    }
  }
}
