/** The ring-buffer page reader of `src/lib/kbuffer.c` (current format): a cursor over the records of
    a page, and a writer that cuts a readable page out of the remaining records. */
module KBuffer {

  // ---------------------------------------------------------------------------------------
  // Words in memory
  // ---------------------------------------------------------------------------------------

  type Byte = n: nat | n < 256 witness 0

  const WORD: nat := 0x1_0000_0000
  const LONG: nat := 0x1_0000_0000_0000_0000

  type Word = n: nat | n < WORD witness 0
  type Long = n: nat | n < LONG witness 0

  function Join4(a: nat, b: nat, c: nat, d: nat): nat {
    0x100_0000 * a + 0x1_0000 * b + 0x100 * c + d
  }

  /** Four bytes as a number, in the order of the data. */
  function Read4(s: seq<Byte>, p: nat, big: bool): Word
    requires p + 4 <= |s|
  {
    if big then Join4(s[p], s[p+1], s[p+2], s[p+3]) else Join4(s[p+3], s[p+2], s[p+1], s[p])
  }

  function Read8(s: seq<Byte>, p: nat, big: bool): Long
    requires p + 8 <= |s|
  {
    if big then WORD * Read4(s, p, big) + Read4(s, p + 4, big) else WORD * Read4(s, p + 4, big) + Read4(s, p, big)
  }

  function Bytes4(v: Word, big: bool): (s: seq<Byte>)
    ensures |s| == 4
  {
    var a, b, c, d := v / 0x100_0000, v / 0x1_0000 % 0x100, v / 0x100 % 0x100, v % 0x100;
    if big then [a, b, c, d] else [d, c, b, a]
  }

  lemma Digits(v: Word)
    ensures Join4(v / 0x100_0000, v / 0x1_0000 % 0x100, v / 0x100 % 0x100, v % 0x100) == v
  {
    assert v / 0x100 == v / 0x1_0000 * 0x100 + v / 0x100 % 0x100;
    assert v / 0x1_0000 == v / 0x100_0000 * 0x100 + v / 0x1_0000 % 0x100;
  }

  function Bytes8(v: Long, big: bool): (s: seq<Byte>)
    ensures |s| == 8
  {
    if big then Bytes4(v / WORD, big) + Bytes4(v % WORD, big) else Bytes4(v % WORD, big) + Bytes4(v / WORD, big)
  }

  /** What is written reads back. */
  lemma Read4Back(s: seq<Byte>, p: nat, v: Word, big: bool)
    requires p + 4 <= |s| && s[p..p+4] == Bytes4(v, big)
    ensures Read4(s, p, big) == v
  {
    Digits(v);
    var b := Bytes4(v, big);
    assert s[p] == s[p..p+4][0] == b[0] && s[p+1] == s[p..p+4][1] == b[1];
    assert s[p+2] == s[p..p+4][2] == b[2] && s[p+3] == s[p..p+4][3] == b[3];
  }

  lemma Read8Back(s: seq<Byte>, p: nat, v: Long, big: bool)
    requires p + 8 <= |s| && s[p..p+8] == Bytes8(v, big)
    ensures Read8(s, p, big) == v
  {
    var b := Bytes8(v, big);
    assert s[p..p+4] == s[p..p+8][..4] == b[..4];
    assert s[p+4..p+8] == s[p..p+8][4..] == b[4..];
    Read4Back(s, p, if big then v / WORD else v % WORD, big);
    Read4Back(s, p + 4, if big then v % WORD else v / WORD, big);
  }

  // ---------------------------------------------------------------------------------------
  // Byte order of the host
  // ---------------------------------------------------------------------------------------

  /** The bytes of a word in the opposite order. */
  function Swap4(w: Word): Word {
    Join4(w % 0x100, w / 0x100 % 0x100, w / 0x1_0000 % 0x100, w / 0x100_0000)
  }

  function Swap8(v: Long): Long { WORD * Swap4(v % WORD) + Swap4(v / WORD) }

  /** `do_swap`: the host bit is bit 0 of the flags, the data bit is bit 1. */
  predicate DoSwap(hostBig: bool, big: bool) {
    var flags := (if hostBig then 1 else 0) + (if big then 2 else 0);
    (flags % 2 + flags) % 4 != 0
  }

  lemma LastDigit(x: nat, d: nat)
    requires d < 256
    ensures (0x100 * x + d) / 0x100 == x && (0x100 * x + d) % 0x100 == d
  {
  }

  lemma SwapsJoined(a: nat, b: nat, c: nat, d: nat)
    requires a < 256 && b < 256 && c < 256 && d < 256
    ensures Join4(a, b, c, d) < WORD && Swap4(Join4(a, b, c, d)) == Join4(d, c, b, a)
  {
    var w := Join4(a, b, c, d);
    var high, mid := 0x100 * a + b, 0x1_0000 * a + 0x100 * b + c;
    LastDigit(mid, d);
    LastDigit(high, c);
    LastDigit(a, b);
    assert w == 0x100 * mid + d && mid == 0x100 * high + c;
    assert w / 0x1_0000 == w / 0x100 / 0x100 && w / 0x100_0000 == w / 0x1_0000 / 0x100;
    hide Join4;
  }

  /** What the source reads, in the host's order and swapped if need be, is the data in its own order. */
  lemma HostReads4(s: seq<Byte>, p: nat, hostBig: bool, big: bool)
    requires p + 4 <= |s|
    ensures (if DoSwap(hostBig, big) then Swap4(Read4(s, p, hostBig)) else Read4(s, p, hostBig)) == Read4(s, p, big)
  {
    hide Join4, Swap4;
    SwapsJoined(s[p], s[p+1], s[p+2], s[p+3]);
    SwapsJoined(s[p+3], s[p+2], s[p+1], s[p]);
  }

  lemma HostReads8(s: seq<Byte>, p: nat, hostBig: bool, big: bool)
    requires p + 8 <= |s|
    ensures (if DoSwap(hostBig, big) then Swap8(Read8(s, p, hostBig)) else Read8(s, p, hostBig)) == Read8(s, p, big)
  {
    hide Read4, Swap4;
    HostReads4(s, p, hostBig, big);
    HostReads4(s, p + 4, hostBig, big);
    Halves(Read4(s, p, hostBig), Read4(s, p + 4, hostBig));
    Halves(Read4(s, p + 4, hostBig), Read4(s, p, hostBig));
  }

  lemma Halves(a: Word, b: Word)
    ensures (WORD * a + b) / WORD == a && (WORD * a + b) % WORD == b
  {
  }

  datatype Endian = EndianBig | EndianLittle | EndianSameAsHost

  /** The data order a buffer is allocated with: the host's own order is noted in a local variable only. */
  function AllocBig(endian: Endian): bool { endian == EndianBig }

  predicate AskedBig(endian: Endian, hostBig: bool) { endian == EndianBig || (endian == EndianSameAsHost && hostBig) }

  /** The order is the one asked for, except that of a big-endian host. */
  lemma AllocatedAsAskedIff(endian: Endian, hostBig: bool)
    ensures AllocBig(endian) == AskedBig(endian, hostBig) <==> !(endian == EndianSameAsHost && hostBig)
  {
  }

  // ---------------------------------------------------------------------------------------
  // Records
  // ---------------------------------------------------------------------------------------

  const TYPE_PADDING: nat := 29
  const TYPE_TIME_EXTEND: nat := 30
  const TYPE_TIME_STAMP: nat := 31

  const COMMIT: nat := 0x800_0000
  const MISSING_EVENTS: nat := 0x8000_0000
  const MISSING_STORED: nat := 0x4000_0000
  /** 2 to the power 59: absolute stamps take the bits above from the current time. */
  const TS_MSB: nat := 0x800_0000_0000_0000

  /** The type and length field of a record's first word. */
  function TypeLen(w: Word, big: bool): (t: nat)
    ensures t < 32
  {
    if big then w / COMMIT else w % 32
  }

  /** The time field of a record's first word. */
  function TimeField(w: Word, big: bool): nat { if big then w % COMMIT else w / 32 }

  /** The word with its time field cleared. */
  function WithoutTime(w: Word, big: bool): Word { if big then w - w % COMMIT else w % 32 }

  lemma WithoutTimeFields(w: Word, big: bool)
    ensures TypeLen(WithoutTime(w, big), big) == TypeLen(w, big) && TimeField(WithoutTime(w, big), big) == 0
  {
  }

  function Kind(d: seq<Byte>, p: nat, big: bool): (k: nat)
    requires p + 4 <= |d|
    ensures k < 32
  {
    TypeLen(Read4(d, p, big), big)
  }

  /** Whether this kind has a second header word. */
  predicate Extended(kind: nat) { kind == 0 || kind >= TYPE_PADDING }

  /** Whether this kind is an event with data. */
  predicate IsEvent(kind: nat) { kind < TYPE_PADDING }

  /** The record's header lies within the data. */
  predicate Readable(d: seq<Byte>, p: nat, big: bool) {
    p + 4 <= |d| && (Extended(Kind(d, p, big)) ==> p + 8 <= |d|)
  }

  /** Rounds up to a multiple of four. */
  function Align4(x: int): int { (x + 3) / 4 * 4 }

  /** Where the record's data starts. A padding's own length word counts as data. */
  function IndexAt(d: seq<Byte>, p: nat, big: bool): nat
    requires Readable(d, p, big)
  {
    var kind := Kind(d, p, big);
    if kind == 0 || kind == TYPE_TIME_EXTEND || kind == TYPE_TIME_STAMP then p + 8 else p + 4
  }

  function LengthAt(d: seq<Byte>, p: nat, big: bool): int
    requires Readable(d, p, big)
  {
    var kind := Kind(d, p, big);
    if kind == TYPE_PADDING then Read4(d, p + 4, big)
    else if kind == TYPE_TIME_EXTEND || kind == TYPE_TIME_STAMP then 0
    else if kind == 0 then Align4(Read4(d, p + 4, big) - 4)
    else kind * 4
  }

  /** Where the next record starts, in 32-bit arithmetic. */
  function NextAt(d: seq<Byte>, p: nat, big: bool): nat
    requires Readable(d, p, big)
  {
    (IndexAt(d, p, big) + LengthAt(d, p, big)) % WORD
  }

  /** The time after a record, in 64-bit arithmetic: a difference, or an absolute time whose upper bits
      are those of the time before. */
  function StampAt(d: seq<Byte>, p: nat, ts: Long, big: bool): Long
    requires Readable(d, p, big)
  {
    var kind, time := Kind(d, p, big), TimeField(Read4(d, p, big), big);
    if kind == TYPE_TIME_STAMP then COMMIT * Read4(d, p + 4, big) + time + (ts - ts % TS_MSB)
    else if kind == TYPE_TIME_EXTEND then (ts + (COMMIT * Read4(d, p + 4, big) + time)) % LONG
    else (ts + time) % LONG
  }

  // ---------------------------------------------------------------------------------------
  // Pages
  // ---------------------------------------------------------------------------------------

  datatype Event = Event(ts: Long, payload: seq<Byte>)

  /** Where the record's header ends. */
  function HeaderEnd(d: seq<Byte>, p: nat, big: bool): nat
    requires p + 4 <= |d|
  {
    p + if Extended(Kind(d, p, big)) then 8 else 4
  }

  /** Records tile the data from `p` to `end`. */
  ghost predicate Tiled(d: seq<Byte>, p: nat, end: nat, big: bool)
    decreases end - p
  {
    p <= end <= |d|
    && (p < end ==>
         Readable(d, p, big) && HeaderEnd(d, p, big) <= NextAt(d, p, big) <= end &&
           Tiled(d, NextAt(d, p, big), end, big))
  }

  /** The time at `end`, coming from `p` with time `ts`. */
  ghost function TimeAt(d: seq<Byte>, p: nat, end: nat, ts: Long, big: bool): Long
    requires Tiled(d, p, end, big)
    decreases end - p
  {
    if p == end then ts else TimeAt(d, NextAt(d, p, big), end, StampAt(d, p, ts, big), big)
  }

  /** The events from `p` to `end`, coming with time `ts`: what the page means. */
  ghost function Events(d: seq<Byte>, p: nat, end: nat, ts: Long, big: bool): seq<Event>
    requires Tiled(d, p, end, big)
    decreases end - p
  {
    if p == end then []
    else
      var next, t := NextAt(d, p, big), StampAt(d, p, ts, big);
      (if IsEvent(Kind(d, p, big)) then [Event(t, d[IndexAt(d, p, big)..next])] else []) + Events(d, next, end, t, big)
  }

  /** Two stretches of records make one. */
  lemma {:induction false} TiledJoin(d: seq<Byte>, p: nat, q: nat, end: nat, ts: Long, big: bool)
    requires Tiled(d, p, q, big) && Tiled(d, q, end, big)
    ensures Tiled(d, p, end, big)
    ensures TimeAt(d, p, end, ts, big) == TimeAt(d, q, end, TimeAt(d, p, q, ts, big), big)
    ensures Events(d, p, end, ts, big) == Events(d, p, q, ts, big) + Events(d, q, end, TimeAt(d, p, q, ts, big), big)
    decreases q - p
  {
    hide Read4, Kind, IndexAt, NextAt, StampAt, Readable, HeaderEnd, IsEvent;
    if p < q {
      assert p < NextAt(d, p, big) by {
        OneRecord(d, p, q, ts, big);
      }
      TiledJoin(d, NextAt(d, p, big), q, end, StampAt(d, p, ts, big), big);
    }
  }

  /** A single record. */
  lemma OneRecord(d: seq<Byte>, p: nat, end: nat, ts: Long, big: bool)
    requires p < end && Tiled(d, p, end, big)
    ensures var next := NextAt(d, p, big);
      && p + 4 <= next && Tiled(d, p, next, big) && Tiled(d, next, end, big) &&
           TimeAt(d, p, next, ts, big) == StampAt(d, p, ts, big)
      && Events(d, p, next, ts, big)
         == if IsEvent(Kind(d, p, big)) then [Event(StampAt(d, p, ts, big), d[IndexAt(d, p, big)..next])] else []
  {
    var next, t := NextAt(d, p, big), StampAt(d, p, ts, big);
    assert Events(d, next, next, t, big) == [];
  }

  /** A stretch of records means the same wherever its bytes stand. */
  lemma {:induction false} Moved(d: seq<Byte>, d': seq<Byte>, p: nat, end: nat, k: nat, ts: Long, big: bool)
    requires Tiled(d, p, end, big) && k <= p && end - k <= |d'| && end < WORD
    requires forall i :: p <= i < end ==> d'[i-k] == d[i]
    ensures Tiled(d', p - k, end - k, big)
    ensures Events(d', p - k, end - k, ts, big) == Events(d, p, end, ts, big)
    decreases end - p
  {
    hide Read4, Kind, IndexAt, NextAt, StampAt;
    if p < end {
      var next := NextAt(d, p, big);
      RecordMoved(d, d', p, end, k, ts, big);
      Moved(d, d', next, end, k, StampAt(d, p, ts, big), big);
      assert d'[IndexAt(d', p - k, big)..next-k] == d[IndexAt(d, p, big)..next];
    }
  }

  lemma WordMoved(d: seq<Byte>, d': seq<Byte>, p: nat, k: nat, big: bool)
    requires k <= p && p + 4 <= |d| && p + 4 - k <= |d'| && forall i :: p <= i < p + 4 ==> d'[i-k] == d[i]
    ensures Read4(d', p - k, big) == Read4(d, p, big)
  {
    hide Join4;
    assert d'[p+0-k] == d[p+0] && d'[p+1-k] == d[p+1] && d'[p+2-k] == d[p+2] && d'[p+3-k] == d[p+3];
  }

  lemma WrapMoved(x: int, k: nat)
    requires k <= x % WORD
    ensures (x - k) % WORD == x % WORD - k
  {
  }

  lemma RecordMoved(d: seq<Byte>, d': seq<Byte>, p: nat, end: nat, k: nat, ts: Long, big: bool)
    requires p < end && Tiled(d, p, end, big) && k <= p && end - k <= |d'| && end < WORD
    requires forall i :: p <= i < end ==> d'[i-k] == d[i]
    ensures Readable(d', p - k, big) && Kind(d', p - k, big) == Kind(d, p, big)
    ensures NextAt(d', p - k, big) == NextAt(d, p, big) - k && IndexAt(d', p - k, big) == IndexAt(d, p, big) - k
    ensures StampAt(d', p - k, ts, big) == StampAt(d, p, ts, big)
    ensures p < IndexAt(d, p, big) <= NextAt(d, p, big) <= end
  {
    hide Read4, TypeLen, TimeField;
    WordMoved(d, d', p, k, big);
    if Extended(Kind(d, p, big)) {
      assert forall i :: p + 4 <= i < p + 8 ==> d'[i-k] == d[i];
      WordMoved(d, d', p + 4, k, big);
    }
    WrapMoved(IndexAt(d, p, big) + LengthAt(d, p, big), k);
  }

  /** Records copied to the front of a page mean the same there, if the time field of the first one is
      cleared and the page starts with the time of the first event. */
  lemma Restarted(d: seq<Byte>, d': seq<Byte>, p: nat, end: nat, ts: Long, big: bool)
    requires p < end && Tiled(d, p, end, big) && end < WORD && IsEvent(Kind(d, p, big)) && |d'| == end - p
    requires Read4(d', 0, big) == WithoutTime(Read4(d, p, big), big)
    requires forall i :: p + 4 <= i < end ==> d'[i-p] == d[i]
    ensures Tiled(d', 0, |d'|, big)
    ensures Events(d', 0, |d'|, ts, big)
         == [Event(ts, d[IndexAt(d, p, big)..NextAt(d, p, big)])] + Events(d, NextAt(d, p, big), end, ts, big)
  {
    hide Read4, Kind, IndexAt, NextAt, StampAt, Readable, HeaderEnd, IsEvent, WithoutTime;
    var next := NextAt(d, p, big);
    FirstRestarted(d, d', p, end, ts, big);
    Moved(d, d', next, end, p, ts, big);
    assert d'[IndexAt(d, p, big) - p..next - p] == d[IndexAt(d, p, big)..next];
  }

  lemma FirstRestarted(d: seq<Byte>, d': seq<Byte>, p: nat, end: nat, ts: Long, big: bool)
    requires p < end && Tiled(d, p, end, big) && end < WORD && IsEvent(Kind(d, p, big)) && |d'| == end - p
    requires Read4(d', 0, big) == WithoutTime(Read4(d, p, big), big)
    requires forall i :: p + 4 <= i < end ==> d'[i-p] == d[i]
    ensures Readable(d', 0, big) && IsEvent(Kind(d', 0, big)) && HeaderEnd(d', 0, big) == HeaderEnd(d, p, big) - p
    ensures NextAt(d', 0, big) == NextAt(d, p, big) - p && IndexAt(d', 0, big) == IndexAt(d, p, big) - p
    ensures StampAt(d', 0, ts, big) == ts && p + 4 <= IndexAt(d, p, big) <= NextAt(d, p, big) <= end
    ensures HeaderEnd(d, p, big) <= NextAt(d, p, big)
  {
    hide Read4, TypeLen, TimeField, WithoutTime;
    WithoutTimeFields(Read4(d, p, big), big);
    if Extended(Kind(d, p, big)) {
      assert forall i :: p + 4 <= i < p + 8 ==> d'[i-p] == d[i];
      WordMoved(d, d', p + 4, p, big);
    }
    WrapMoved(IndexAt(d, p, big) + LengthAt(d, p, big), p);
  }

  // ---------------------------------------------------------------------------------------
  // The cursor
  // ---------------------------------------------------------------------------------------

  class Kbuf {
    var timestamp: Long
    var lostEvents: int
    const big: bool
    const long8: bool
    var subbuffer: array?<Byte>
    var index: nat
    var curr: nat
    var next: nat
    var size: nat
    var start: nat
    var first: nat

    constructor (big: bool, long8: bool)
      ensures this.big == big && this.long8 == long8 && subbuffer == null
    {
      this.big, this.long8 := big, long8;
      timestamp, lostEvents, index, curr, next, size, start, first := 0, 0, 0, 0, 0, 0, 0, 0;
      subbuffer := null;
    }

    /** A page is loaded. */
    ghost predicate Loaded()
      reads this, subbuffer
    {
      subbuffer != null && start == HeaderSize(long8) && start + size <= subbuffer.Length && size < COMMIT
    }

    /** The records of the page. */
    function Data(): (d: seq<Byte>)
      requires Loaded()
      reads this, subbuffer
      ensures |d| == size
    {
      subbuffer[start..start+size]
    }

    /** The cursor stands on an event, or behind the last one. */
    ghost predicate Valid()
      reads this, subbuffer
    {
      && Loaded() && curr <= size && Tiled(Data(), next, size, big)
      && (curr == size ==> next == size)
      && (curr < size ==>
            && Tiled(Data(), curr, size, big) && IsEvent(Kind(Data(), curr, big))
            && index == IndexAt(Data(), curr, big) && next == NextAt(Data(), curr, big))
    }

    /** The events from the cursor on. */
    ghost function Remaining(): seq<Event>
      requires Valid()
      reads this, subbuffer
    {
      if curr == size then []
      else [Event(timestamp, Data()[index..next])] + Events(Data(), next, size, timestamp, big)
    }

    /** Decodes the record at `curr`. */
    method TranslateData() returns (typeLen: nat, ptr: nat, delta: nat, length: int)
      requires Loaded() && Readable(Data(), curr, big)
      ensures typeLen == Kind(Data(), curr, big) && ptr == IndexAt(Data(), curr, big) &&
        length == LengthAt(Data(), curr, big)
      ensures StampAt(Data(), curr, timestamp, big)
        == if typeLen == TYPE_TIME_STAMP then delta else (timestamp + delta) % LONG
    {
      hide Read4, TypeLen, TimeField, Align4, Data;
      var d := Data();
      var typeLenTs := Read4(d, curr, big);
      ptr := curr + 4;
      typeLen := TypeLen(typeLenTs, big);
      delta := TimeField(typeLenTs, big);
      var msb := 0;
      if typeLen == TYPE_PADDING {
        length := Read4(d, ptr, big);
      } else if typeLen == TYPE_TIME_STAMP || typeLen == TYPE_TIME_EXTEND {
        if typeLen == TYPE_TIME_STAMP {
          msb := timestamp - timestamp % TS_MSB;
        }
        var extend: nat := Read4(d, ptr, big);
        ptr := ptr + 4;
        extend := COMMIT * extend + delta;
        delta := extend + msb;
        length := 0;
      } else if typeLen == 0 {
        length := Align4(Read4(d, ptr, big) - 4);
        ptr := ptr + 4;
      } else {
        length := typeLen * 4;
      }
    }

    /** Moves the pointers over the record at `curr`. */
    method UpdatePointers() returns (typeLen: nat)
      requires Loaded() && Readable(Data(), curr, big)
      modifies `timestamp, `index, `next
      ensures typeLen == Kind(Data(), curr, big) && index == IndexAt(Data(), curr, big) &&
        next == NextAt(Data(), curr, big)
      ensures timestamp == StampAt(Data(), curr, old(timestamp), big)
    {
      hide Read4, TypeLen, TimeField, LengthAt, IndexAt, StampAt;
      var ptr, delta, length;
      typeLen, ptr, delta, length := TranslateData();
      if typeLen == TYPE_TIME_STAMP {
        timestamp := delta;
      } else {
        timestamp := (timestamp + delta) % LONG;
      }
      index := ptr;
      next := (index + length) % WORD;
    }

    /** Advances to the next event, over paddings and time records. */
    method NextEvent() returns (found: bool)
      requires Loaded() && next <= size && Tiled(Data(), next, size, big)
      modifies `timestamp, `index, `curr, `next
      ensures Valid() && Remaining() == Events(old(Data()), old(next), size, old(timestamp), big)
      ensures found <==> curr < size
      ensures old(next) <= curr && Silent(Data(), old(next), curr, old(timestamp), timestamp, found, big)
    {
      hide Read4, Kind, IndexAt, NextAt, StampAt, HeaderEnd;
      ghost var d, p0, t0 := Data(), next, timestamp;
      SilentStart(d, next, timestamp, big);
      while true
        invariant Loaded() && Data() == d && p0 <= next <= size && Tiled(d, next, size, big)
        invariant Events(d, p0, size, t0, big) == Events(d, next, size, timestamp, big)
        invariant Silent(d, p0, next, t0, timestamp, false, big)
        decreases size - next
      {
        curr := next;
        if next >= size {
          return false;
        }
        OneRecord(d, curr, size, timestamp, big);
        ghost var t := timestamp;
        var typeLen := UpdatePointers();
        SilentOn(d, p0, curr, size, t0, t, big);
        if typeLen != TYPE_TIME_EXTEND && typeLen != TYPE_TIME_STAMP && typeLen != TYPE_PADDING {
          return true;
        }
      }
    }

    /** Takes over a page and its header. */
    method LoadHeader(page: array<Byte>)
      requires Complete(page[..], big, long8) && CountStored(page[..], big, long8)
      modifies this
      ensures subbuffer == page && timestamp == Read8(page[..], 0, big) && size == SizeOf(page[..], big, long8)
      ensures start == HeaderSize(long8) && curr == next == 0 && lostEvents == LostOf(page[..], big, long8)
    {
      hide Read4, Read8;
      var s := page[..];
      subbuffer := page;
      timestamp := Read8(s, 0, big);
      curr, next, index := 0, 0, 0;
      start := if long8 then 16 else 12;
      var flags := ReadLong(s, 8, big, long8);
      size := flags % COMMIT;
      if flags / MISSING_EVENTS % 2 == 1 {
        if flags / MISSING_STORED % 2 == 1 {
          lostEvents := ReadLong(s, start + size, big, long8);
        } else {
          lostEvents := -1;
        }
      } else {
        lostEvents := 0;
      }
    }

    /** Loads a page and stands on its first event. */
    method LoadSubbuffer(page: array?<Byte>) returns (rv: int)
      requires page != null ==> GoodPage(page[..], big, long8)
      modifies this
      ensures rv == if page == null then -1 else 0
      ensures page == null ==> unchanged(this)
      ensures page != null ==> subbuffer == page && Valid() && Remaining() == PageEvents(page[..], big, long8)
      ensures page != null ==> first == curr && lostEvents == LostOf(page[..], big, long8)
    {
      hide Read4, Read8, ReadLong, LostOf, Tiled, Events, CountStored;
      if page == null {
        return -1;
      }
      ghost var s := page[..];
      LoadHeader(page);
      assert Data() == DataOf(s, big, long8);
      var _ := NextEvent();
      first := curr;
      rv := 0;
    }

    /** Takes the event under the cursor and advances. `taken` are the events since `p`, where the time
        was `ts0`; their records end at `lastNext` with time `t`. */
    method TakeEvent(ghost p: nat, ghost ts0: Long, ghost lastNext: nat, ghost t: Long, ghost taken: seq<Event>)
      returns (found: bool, ghost taken': seq<Event>)
      requires Valid() && curr < size && Reached(Data(), p, ts0, lastNext, t, taken, curr, next, timestamp, big)
      modifies `timestamp, `index, `curr, `next
      ensures Valid() && (found <==> curr < size) && old(curr) < curr && p < old(next) <= size
      ensures Taken(Data(), p, old(next), ts0, old(timestamp), taken', big) && |taken'| == |taken| + 1
      ensures taken' + Remaining() == taken + old(Remaining())
      ensures found ==> Reached(Data(), p, ts0, old(next), old(timestamp), taken', curr, next, timestamp, big)
    {
      hide Read4, Kind, IndexAt, NextAt, StampAt, HeaderEnd, Silent, Taken;
      if taken == [] {
        FirstTaken(Data(), curr, size, ts0, big);
      } else {
        NextTaken(Data(), p, lastNext, curr, size, ts0, t, timestamp, taken, big);
      }
      ghost var e, later := Event(timestamp, Data()[index..next]), Events(Data(), next, size, timestamp, big);
      taken' := taken + [e];
      assert taken + ([e] + later) == taken' + later && (taken == [] ==> taken' == [e]);
      found := NextEvent();
    }

    /** Advances while the records from the cursor up to and including the current event fit `room`
        bytes; `n` events are passed, and the last of them ends at `lastNext`. */
    method TakeFitting(room: nat) returns (lastNext: nat, ghost n: nat)
      requires Valid() && curr < size && next - curr <= room
      modifies `timestamp, `index, `curr, `next
      ensures Valid() && old(curr) < lastNext <= size && lastNext - old(curr) <= room
      ensures 1 <= n <= |old(Remaining())| && Remaining() == old(Remaining())[n..]
      ensures exists t :: Taken(Data(), old(curr), lastNext, old(timestamp), t, old(Remaining())[..n], big)
      ensures curr == size || room < next - old(curr)
    {
      hide Tiled, Reached, Taken, Events, Remaining, IndexAt, NextAt, Kind;
      var saveCurr := curr;
      lastNext := next;
      ghost var d, ts0, t, all, taken := Data(), timestamp, timestamp, Remaining(), [];
      ReachedFirst(d, curr, timestamp, next, big);
      while room >= next - saveCurr
        invariant Valid() && curr < size && Data() == d && all == taken + Remaining()
        invariant Reached(d, saveCurr, ts0, lastNext, t, taken, curr, next, timestamp, big)
        invariant taken == [] ==> next - saveCurr <= room
        invariant taken != [] ==>
          saveCurr < lastNext <= size && lastNext - saveCurr <= room
          && Taken(d, saveCurr, lastNext, ts0, t, taken, big)
        decreases size - curr
      {
        ghost var t' := timestamp;
        var last := next;
        var found;
        found, taken := TakeEvent(saveCurr, ts0, lastNext, t, taken);
        lastNext, t := last, t';
        if !found {
          break;
        }
      }
      n := |taken|;
      assert all[..n] == taken && all[n..] == Remaining();
    }

    /** Cuts a page out of the remaining records: as many events as fit `len` bytes. 0 exactly when
        there is none, -1 exactly when not even the first one fits, and then nothing changes. */
    method ReadBuffer(buffer: array<Byte>, len: nat) returns (rv: int, ghost n: nat)
      requires Valid() && len <= buffer.Length && buffer != subbuffer
      modifies `timestamp, `index, `curr, `next, buffer
      ensures Valid()
      ensures rv == 0 <==> old(Remaining()) == []
      ensures rv == -1 <==> old(Remaining()) != [] && len < start + (old(next) - old(curr))
      ensures rv <= 0 ==> (rv == 0 || rv == -1) && n == 0 && buffer[..] == old(buffer[..])
      ensures rv <= 0 ==>
        Remaining() == old(Remaining()) && curr == old(curr) && next == old(next) && timestamp == old(timestamp)
      // what is written is a page of the first `n` events, what remains are the others
      ensures rv > 0 ==> 1 <= n <= |old(Remaining())| && Remaining() == old(Remaining())[n..]
      ensures rv > 0 ==> old(curr) < rv && CutOf(buffer[..], old(Remaining())[..n], rv - old(curr), big, long8)
      // it fits, and with the next event it would not
      ensures rv > 0 ==> start + (rv - old(curr)) <= len
      ensures rv > 0 ==> Remaining() == [] || len < start + (next - old(curr))
      ensures SameFrom(len, old(buffer[..]), buffer[..])
    {
      hide Tiled, Events, Kind, IndexAt, NextAt, GoodPage, PageEvents, SizeOf, Remaining, CutOf, SameFrom;
      EmptyIff();
      SameSelf(len, buffer[..]);
      rv, n := 0, 0;
      if curr >= size {
        return;
      }
      EventFirst();
      if len < start || len < (next - curr) + start {
        rv := -1;
        return;
      }
      rv, n := CutPage(buffer, len);
      EmptyIff();
    }

    /** The part of `ReadBuffer` that writes. */
    method CutPage(buffer: array<Byte>, len: nat) returns (lastNext: nat, ghost n: nat)
      requires Valid() && curr < size && start + (next - curr) <= len <= buffer.Length && buffer != subbuffer
      modifies `timestamp, `index, `curr, `next, buffer
      ensures Valid() && old(curr) < lastNext && start + (lastNext - old(curr)) <= len
      ensures 1 <= n <= |old(Remaining())| && Remaining() == old(Remaining())[n..]
      ensures CutOf(buffer[..], old(Remaining())[..n], lastNext - old(curr), big, long8)
      ensures curr == size || len < start + (next - old(curr))
      ensures SameFrom(len, old(buffer[..]), buffer[..])
    {
      hide Tiled, Events, Kind, IndexAt, NextAt, Taken, IsCut, CutOf, Bytes8, Remaining, PutAt, SameFrom;
      EventFirst();
      ghost var s0 := buffer[..];
      Put(buffer, 0, Bytes8(timestamp, big));
      ghost var s1, d, ts := buffer[..], Data(), timestamp;
      TimePut(s0, s1, timestamp, big);
      var saveCurr := curr;
      lastNext, n := TakeFitting(len - start);
      assert buffer[..] == s1 && Data() == d;
      ghost var events := old(Remaining())[..n];
      ghost var t :| Taken(d, saveCurr, lastNext, ts, t, events, big);
      StretchTaken(d, saveCurr, lastNext, ts, t, events, big);
      WriteCut(buffer, saveCurr, lastNext, ts);
      CutMeans(buffer[..], d, saveCurr, lastNext, ts, t, events, big, long8);
      SameBeyond(s0, s1, buffer[..], start + (lastNext - saveCurr), len);
    }

    lemma EmptyIff()
      requires Valid()
      ensures Remaining() == [] <==> curr == size
    {
    }

    lemma EventFirst()
      requires Valid() && curr < size
      ensures Tiled(Data(), curr, size, big) && IsEvent(Kind(Data(), curr, big)) && curr + 4 <= next
    {
    }

    /** Copies the records from `p` to `end`, clears the first time field, and writes the length. */
    method WriteCut(buffer: array<Byte>, p: nat, end: nat, ghost ts: Long)
      requires Loaded() && p + 4 <= end <= size && start + (end - p) <= buffer.Length && buffer != subbuffer
      requires buffer[..8] == Bytes8(ts, big)
      modifies buffer
      ensures IsCut(buffer[..], Data(), p, end, ts, big, long8)
      ensures SameFrom(start + (end - p), old(buffer[..]), buffer[..])
    {
      hide Read4, Bytes4, Bytes8, WithoutTime, IsCut, SameFrom, Data;
      var d, n := Data(), end - p;
      ghost var s0 := buffer[..];
      Put(buffer, start, d[p..end]);
      assert Data() == d;
      ghost var s1 := buffer[..];
      CopiedWord(s1, d, p, end, start);
      var typeLenTs := Read4(buffer[..], start, big);
      Put(buffer, start, Bytes4(WithoutTime(typeLenTs, big), big));
      ghost var s2 := buffer[..];
      if long8 {
        Put(buffer, 8, Bytes8(n, big));
      } else {
        Put(buffer, 8, Bytes4(n, big));
      }
      assert Data() == d;
      CutWritten(s0, s1, s2, buffer[..], d, p, end, ts, big, long8);
    }

    lemma CopiedWord(page: seq<Byte>, d: seq<Byte>, p: nat, end: nat, start: nat)
      requires p + 4 <= end <= |d| && start + (end - p) <= |page| && page[start..start + (end - p)] == d[p..end]
      ensures Read4(page, start, big) == Read4(d, p, big)
    {
    }
  }

  /** No event between `p` and `curr`; the time `ts` there includes, if `here`, that of the record at `curr`. */
  ghost predicate Silent(d: seq<Byte>, p: nat, curr: nat, ts0: Long, ts: Long, here: bool, big: bool) {
    && Tiled(d, p, curr, big) && Events(d, p, curr, ts0, big) == []
    && (if here then Readable(d, curr, big) && ts == StampAt(d, curr, TimeAt(d, p, curr, ts0, big), big)
        else ts == TimeAt(d, p, curr, ts0, big))
  }

  /** The record at `q` is reached, and passed over if it is no event. */
  lemma SilentOn(d: seq<Byte>, p: nat, q: nat, end: nat, ts0: Long, ts: Long, big: bool)
    requires Silent(d, p, q, ts0, ts, false, big) && q < end && Tiled(d, q, end, big)
    ensures Silent(d, p, q, ts0, StampAt(d, q, ts, big), true, big)
    ensures !IsEvent(Kind(d, q, big)) ==> Silent(d, p, NextAt(d, q, big), ts0, StampAt(d, q, ts, big), false, big)
  {
    hide Read4, Kind, IndexAt, NextAt, StampAt, HeaderEnd, IsEvent;
    OneRecord(d, q, end, ts, big);
    TiledJoin(d, p, q, NextAt(d, q, big), ts0, big);
  }

  lemma SilentStart(d: seq<Byte>, p: nat, ts: Long, big: bool)
    requires p <= |d|
    ensures Silent(d, p, p, ts, ts, false, big)
  {
  }

  /** The events of the records from `p`, where an event with time `ts` stands, to `end`, where the
      time is `t`. */
  ghost predicate Taken(d: seq<Byte>, p: nat, end: nat, ts: Long, t: Long, events: seq<Event>, big: bool) {
    && Readable(d, p, big) && p < IndexAt(d, p, big) <= NextAt(d, p, big) <= end <= |d|
    && Tiled(d, NextAt(d, p, big), end, big) && TimeAt(d, NextAt(d, p, big), end, ts, big) == t
    && events == [Event(ts, d[IndexAt(d, p, big)..NextAt(d, p, big)])] + Events(d, NextAt(d, p, big), end, ts, big)
  }

  /** The cursor stands on an event: the first one at `p`, or one reached from the end of those taken. */
  ghost predicate Reached(d: seq<Byte>, p: nat, ts0: Long, last: nat, t: Long, taken: seq<Event>,
                          curr: nat, next: nat, ts: Long, big: bool) {
    if taken == [] then curr == p && ts == ts0 && last == next
    else Taken(d, p, last, ts0, t, taken, big) && last <= curr && p < last && Silent(d, last, curr, t, ts, true, big)
  }

  lemma ReachedFirst(d: seq<Byte>, p: nat, ts: Long, next: nat, big: bool)
    ensures Reached(d, p, ts, next, ts, [], p, next, ts, big)
  {
  }

  lemma FirstTaken(d: seq<Byte>, p: nat, end: nat, ts: Long, big: bool)
    requires p < end && Tiled(d, p, end, big)
    ensures p < IndexAt(d, p, big) <= NextAt(d, p, big) <= end
    ensures Taken(d, p, NextAt(d, p, big), ts, ts, [Event(ts, d[IndexAt(d, p, big)..NextAt(d, p, big)])], big)
  {
    var next := NextAt(d, p, big);
    assert Tiled(d, next, next, big) && Events(d, next, next, ts, big) == [];
  }

  /** One more event is taken: nothing but time records and paddings stands between. */
  lemma NextTaken(d: seq<Byte>, p: nat, q: nat, curr: nat, end: nat, ts: Long, t: Long, tc: Long, events: seq<Event>,
                  big: bool)
    requires Taken(d, p, q, ts, t, events, big) && q <= curr < end && Silent(d, q, curr, t, tc, true, big)
    requires Tiled(d, curr, end, big) && IsEvent(Kind(d, curr, big))
    ensures curr < IndexAt(d, curr, big) <= NextAt(d, curr, big) <= end
    ensures Taken(d, p, NextAt(d, curr, big), ts, tc,
                  events + [Event(tc, d[IndexAt(d, curr, big)..NextAt(d, curr, big)])], big)
  {
    hide Read4, Kind, IndexAt, NextAt, StampAt, HeaderEnd;
    var first, next := NextAt(d, p, big), NextAt(d, curr, big);
    FirstTaken(d, curr, end, tc, big);
    OneRecord(d, curr, end, TimeAt(d, q, curr, t, big), big);
    TiledJoin(d, q, curr, next, t, big);
    TiledJoin(d, first, q, next, ts, big);
    assert Events(d, q, next, t, big) == [Event(tc, d[IndexAt(d, curr, big)..next])];
  }

  function HeaderSize(long8: bool): nat { if long8 then 16 else 12 }

  /** A word of the page header. */
  function ReadLong(s: seq<Byte>, p: nat, big: bool, long8: bool): nat
    requires p + HeaderSize(long8) - 8 <= |s|
  {
    if long8 then Read8(s, p, big) else Read4(s, p, big)
  }

  function SizeOf(page: seq<Byte>, big: bool, long8: bool): nat
    requires HeaderSize(long8) <= |page|
  {
    ReadLong(page, 8, big, long8) % COMMIT
  }

  /** The page has a header and holds what the header announces. */
  predicate Complete(page: seq<Byte>, big: bool, long8: bool) {
    HeaderSize(long8) <= |page| && HeaderSize(long8) + SizeOf(page, big, long8) <= |page|
  }

  function DataOf(page: seq<Byte>, big: bool, long8: bool): seq<Byte>
    requires Complete(page, big, long8)
  {
    page[HeaderSize(long8)..HeaderSize(long8) + SizeOf(page, big, long8)]
  }

  /** The count of events lost before this page, stored behind its data; -1 if unknown. */
  function LostOf(page: seq<Byte>, big: bool, long8: bool): int
    requires Complete(page, big, long8) && CountStored(page, big, long8)
  {
    var flags := ReadLong(page, 8, big, long8);
    if flags / MISSING_EVENTS % 2 == 0 then 0
    else if flags / MISSING_STORED % 2 == 0 then -1
    else ReadLong(page, HeaderSize(long8) + SizeOf(page, big, long8), big, long8)
  }

  /** Where the flags announce a count of lost events, there is one. */
  predicate CountStored(page: seq<Byte>, big: bool, long8: bool)
    requires Complete(page, big, long8)
  {
    var flags := ReadLong(page, 8, big, long8);
    flags / MISSING_EVENTS % 2 == 1 && flags / MISSING_STORED % 2 == 1
    ==> HeaderSize(long8) + SizeOf(page, big, long8) + (HeaderSize(long8) - 8) <= |page|
  }

  /** A page as the kernel fills it. */
  ghost predicate GoodPage(page: seq<Byte>, big: bool, long8: bool) {
    Complete(page, big, long8) && CountStored(page, big, long8)
    && Tiled(DataOf(page, big, long8), 0, SizeOf(page, big, long8), big)
  }

  /** The events of a page. */
  ghost function PageEvents(page: seq<Byte>, big: bool, long8: bool): seq<Event>
    requires GoodPage(page, big, long8)
  {
    Events(DataOf(page, big, long8), 0, SizeOf(page, big, long8), Read8(page, 0, big), big)
  }

  /** The bytes with some of them replaced. */
  ghost predicate PutAt(before: seq<Byte>, after: seq<Byte>, p: nat, bytes: seq<Byte>) {
    && |after| == |before| && p + |bytes| <= |after| && after[p..p + |bytes|] == bytes
    && forall i :: 0 <= i < p || p + |bytes| <= i < |after| ==> after[i] == before[i]
  }

  ghost predicate SameFrom(k: nat, before: seq<Byte>, after: seq<Byte>) {
    |before| == |after| && forall i :: k <= i < |after| ==> after[i] == before[i]
  }

  /** Stores bytes at an offset. */
  method Put(buffer: array<Byte>, p: nat, bytes: seq<Byte>)
    requires p + |bytes| <= buffer.Length
    modifies buffer
    ensures PutAt(old(buffer[..]), buffer[..], p, bytes)
  {
    forall i | 0 <= i < |bytes| {
      buffer[p + i] := bytes[i];
    }
  }

  /** A page written by `ReadBuffer`: the time, the length, and the records with the first time field cleared. */
  ghost predicate IsCut(page: seq<Byte>, d: seq<Byte>, p: nat, end: nat, ts: Long, big: bool, long8: bool)
    requires p + 4 <= end <= |d| && |d| < COMMIT
  {
    var start, n := HeaderSize(long8), end - p;
    && start + n <= |page|
    && page[..8] == Bytes8(ts, big)
    && (if long8 then page[8..16] == Bytes8(n, big) else page[8..12] == Bytes4(n, big))
    && page[start..start+4] == Bytes4(WithoutTime(Read4(d, p, big), big), big)
    && page[start+4..start+n] == d[p+4..end]
  }

  /** The three writes together make a cut page. */
  lemma CutWritten(s0: seq<Byte>, s1: seq<Byte>, s2: seq<Byte>, s3: seq<Byte>,
                   d: seq<Byte>, p: nat, end: nat, ts: Long, big: bool, long8: bool)
    requires p + 4 <= end <= |d| && |d| < COMMIT && 8 <= |s0| && s0[..8] == Bytes8(ts, big)
    requires PutAt(s0, s1, HeaderSize(long8), d[p..end])
    requires PutAt(s1, s2, HeaderSize(long8), Bytes4(WithoutTime(Read4(d, p, big), big), big))
    requires PutAt(s2, s3, 8, if long8 then Bytes8(end - p, big) else Bytes4(end - p, big))
    ensures IsCut(s3, d, p, end, ts, big, long8) && SameFrom(HeaderSize(long8) + (end - p), s0, s3)
  {
    hide Read4, Bytes4, Bytes8, WithoutTime;
    var start, n := HeaderSize(long8), end - p;
    assert s3[..8] == s0[..8];
    assert s3[start..start+4] == s2[start..start+4];
    forall i | start + 4 <= i < start + n ensures s3[i] == d[p + (i - start)] {
      assert s1[start..start+n][i - start] == d[p..end][i - start];
    }
    assert s3[start+4..start+n] == d[p+4..end];
  }

  /** A good page of these events and this size, with no count of lost events. */
  ghost predicate CutOf(page: seq<Byte>, events: seq<Event>, size: nat, big: bool, long8: bool) {
    GoodPage(page, big, long8) && PageEvents(page, big, long8) == events && SizeOf(page, big, long8) == size
    && LostOf(page, big, long8) == 0
  }

  lemma SameSelf(k: nat, s: seq<Byte>)
    ensures SameFrom(k, s, s)
  {
  }

  lemma TimePut(s0: seq<Byte>, s1: seq<Byte>, ts: Long, big: bool)
    requires PutAt(s0, s1, 0, Bytes8(ts, big))
    ensures s1[..8] == Bytes8(ts, big) && SameFrom(8, s0, s1)
  {
    hide Bytes8;
    assert s1[0..8] == s1[..8];
  }

  lemma SameBeyond(s0: seq<Byte>, s1: seq<Byte>, s2: seq<Byte>, k: nat, len: nat)
    requires SameFrom(8, s0, s1) && SameFrom(k, s1, s2) && 8 <= k <= len
    ensures SameFrom(len, s0, s2)
  {
  }

  lemma CutHeader(page: seq<Byte>, d: seq<Byte>, p: nat, end: nat, ts: Long, big: bool, long8: bool)
    requires p + 4 <= end <= |d| && |d| < COMMIT && IsCut(page, d, p, end, ts, big, long8)
    ensures Complete(page, big, long8) && CountStored(page, big, long8) && SizeOf(page, big, long8) == end - p
    ensures Read8(page, 0, big) == ts && LostOf(page, big, long8) == 0
  {
    hide Read4, Read8, Bytes4, Bytes8;
    var n := end - p;
    assert page[0..8] == page[..8];
    Read8Back(page, 0, ts, big);
    if long8 {
      Read8Back(page, 8, n, big);
    } else {
      Read4Back(page, 8, n, big);
    }
  }

  /** A cut page means the events it was cut from. */
  lemma CutMeans(page: seq<Byte>, d: seq<Byte>, p: nat, end: nat, ts: Long, t: Long, events: seq<Event>, big: bool,
                 long8: bool)
    requires p + 4 <= end <= |d| && |d| < COMMIT && IsCut(page, d, p, end, ts, big, long8)
    requires Tiled(d, p, end, big) && IsEvent(Kind(d, p, big)) && Taken(d, p, end, ts, t, events, big)
    ensures CutOf(page, events, end - p, big, long8)
  {
    hide Read4, Read8, Bytes4, Bytes8, Tiled, Events, Kind, IndexAt, NextAt, ReadLong, LostOf, CountStored, WithoutTime;
    CutHeader(page, d, p, end, ts, big, long8);
    var start := HeaderSize(long8);
    var d' := page[start..start + (end - p)];
    CutRecords(page, d, p, end, ts, big, long8);
    Restarted(d, d', p, end, ts, big);
  }

  /** What has been taken is a stretch of records that starts with an event. */
  lemma StretchTaken(d: seq<Byte>, p: nat, end: nat, ts: Long, t: Long, events: seq<Event>, big: bool)
    requires Taken(d, p, end, ts, t, events, big) && Tiled(d, p, |d|, big) && p < |d|
    ensures p + 4 <= end <= |d| && Tiled(d, p, end, big)
  {
  }

  lemma CutRecords(page: seq<Byte>, d: seq<Byte>, p: nat, end: nat, ts: Long, big: bool, long8: bool)
    requires p + 4 <= end <= |d| && |d| < COMMIT && IsCut(page, d, p, end, ts, big, long8)
    ensures var d' := page[HeaderSize(long8)..HeaderSize(long8) + (end - p)];
      && Read4(d', 0, big) == WithoutTime(Read4(d, p, big), big)
      && forall i :: p + 4 <= i < end ==> d'[i-p] == d[i]
  {
    hide Read4, Bytes4, Bytes8, WithoutTime;
    var start := HeaderSize(long8);
    var d' := page[start..start + (end - p)];
    assert d'[0..4] == page[start..start+4];
    Read4Back(d', 0, WithoutTime(Read4(d, p, big), big), big);
    forall i | p + 4 <= i < end ensures d'[i-p] == d[i] {
      assert page[start+4..start+(end-p)][i-p-4] == d[p+4..end][i-p-4];
    }
  }

  // ---------------------------------------------------------------------------------------
  // Repeated reads
  // ---------------------------------------------------------------------------------------

  ghost predicate AllGood(pages: seq<seq<Byte>>, big: bool, long8: bool) {
    forall i :: 0 <= i < |pages| ==> GoodPage(pages[i], big, long8)
  }

  /** The events of a sequence of pages. */
  ghost function PagesEvents(pages: seq<seq<Byte>>, big: bool, long8: bool): seq<Event>
    requires AllGood(pages, big, long8)
  {
    if pages == [] then []
    else PagesEvents(pages[..|pages|-1], big, long8) + PageEvents(pages[|pages|-1], big, long8)
  }

  lemma OnePageMore(pages: seq<seq<Byte>>, page: seq<Byte>, size: nat, all: seq<Event>, before: seq<Event>,
                    after: seq<Event>, n: nat, big: bool, long8: bool)
    requires AllGood(pages, big, long8) && PagesEvents(pages, big, long8) + before == all
    requires n <= |before| && CutOf(page, before[..n], size, big, long8) && after == before[n..]
    ensures AllGood(pages + [page], big, long8) && PagesEvents(pages + [page], big, long8) + after == all
  {
    hide GoodPage, PageEvents;
    var more := pages + [page];
    assert more[..|pages|] == pages && more[|pages|] == page;
    Regroup(PagesEvents(pages, big, long8), before[..n], after);
    assert before == before[..n] + before[n..];
  }

  lemma Regroup(a: seq<Event>, b: seq<Event>, c: seq<Event>)
    ensures (a + b) + c == a + (b + c)
  {
  }

  /** Reads pages of at most `len` bytes until a read returns 0 or -1. The pages and what remains
      partition the event stream: no event is lost, read twice or changed. It ends with 0 exactly when
      nothing remains, else with an event that does not fit. */
  method ReadAll(kbuf: Kbuf, len: nat) returns (rv: int, pages: seq<seq<Byte>>)
    requires kbuf.Valid()
    modifies kbuf`timestamp, kbuf`index, kbuf`curr, kbuf`next
    ensures kbuf.Valid() && AllGood(pages, kbuf.big, kbuf.long8)
    ensures PagesEvents(pages, kbuf.big, kbuf.long8) + kbuf.Remaining() == old(kbuf.Remaining())
    ensures rv == 0 || rv == -1
    ensures rv == 0 <==> kbuf.Remaining() == []
    ensures rv == -1 ==> len < kbuf.start + (kbuf.next - kbuf.curr)
  {
    hide GoodPage, PageEvents, CutOf, Kbuf.Remaining, Tiled, SameFrom, Kind, IndexAt, NextAt;
    rv, pages := 1, [];
    ghost var all := kbuf.Remaining();
    while rv > 0
      invariant kbuf.Valid() && AllGood(pages, kbuf.big, kbuf.long8) && rv >= -1
      invariant PagesEvents(pages, kbuf.big, kbuf.long8) + kbuf.Remaining() == all
      invariant rv <= 0 ==> (rv == 0 <==> kbuf.Remaining() == [])
      invariant rv == -1 ==> len < kbuf.start + (kbuf.next - kbuf.curr)
      decreases |kbuf.Remaining()|, rv
    {
      ghost var before := kbuf.Remaining();
      var buffer: array<Byte> := new Byte[len](_ => 0);
      ghost var n, next, curr := 0, kbuf.next, kbuf.curr;
      rv, n := kbuf.ReadBuffer(buffer, len);
      if rv > 0 {
        OnePageMore(pages, buffer[..], rv - curr, all, before, kbuf.Remaining(), n, kbuf.big, kbuf.long8);
        pages := pages + [buffer[..]];
      }
    }
  }
}
